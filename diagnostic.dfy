/** Findings and the diagnostic result built from them. */
module Diagnostic {
  import opened Wrappers
  import opened Graph

  /** The three named severities; `Name` gives the Go constant's string value. */
  datatype Severity = Critical | Warning | Info {
    function Name(): (s: string)
      ensures s in {"Critical", "Warning", "Info"}
    {
      match this
      case Critical => "Critical"
      case Warning => "Warning"
      case Info => "Info"
    }
  }

  /** The three severities carry three distinct names, so comparing severities
      and comparing their strings agree. */
  lemma SeverityNamesDistinct(a: Severity, b: Severity)
    ensures a.Name() == b.Name() <==> a == b
  {
  }

  /** Concrete data supporting a finding; `logs` is the optional snippet. */
  datatype Evidence = Evidence(kind: string, name: string, detail: string, logs: seq<string>)

  /** One finding of one rule; `context` is the optional explanation ("" when unset). */
  datatype FailureHint = FailureHint(
    id: string,
    severity: Severity,
    component: string,
    evidence: Evidence,
    suggestion: string,
    context: string)

  /** The wall-clock time of a diagnosis, supplied by the caller. */
  datatype Timestamp = Timestamp(unixNanos: int)

  datatype DiagnosticResult = DiagnosticResult(
    timestamp: Timestamp,
    isHealthy: bool,
    summary: string,
    failureHints: seq<FailureHint>,
    resourceGraph: Option<ResourceGraph>)
}
