/**
 * What both notification channels read from an analysis: its severity (`MEDIUM` when
 * missing), its mandatory flag (false when missing, judged by truthiness), and the
 * recommendation they pick with the same precedence: a mandatory upgrade first, then a
 * `CRITICAL` severity, then a `HIGH` one, then the routine advice.
 */
module AlertFields {
  import opened JsonValue
  import Classifier

  /** `analysis.get("severity", "MEDIUM")`. */
  function Severity(a: map<string, Json>): Json {
    Get(a, "severity", JString("MEDIUM"))
  }

  /** `bool(analysis.get("mandatory_upgrade", False))`. */
  predicate Mandatory(a: map<string, Json>) {
    Truthy(Get(a, "mandatory_upgrade", JBool(false)))
  }

  /** The four recommendations a message can carry. */
  datatype Advice = MandatoryUpgrade | CriticalUpdate | HighPriority | Routine

  /** The `if mandatory / elif severity == "CRITICAL" / elif severity == "HIGH" / else`
      chain of both channels. */
  function AdviceFor(a: map<string, Json>): Advice {
    if Mandatory(a) then MandatoryUpgrade
    else if Severity(a) == JString("CRITICAL") then CriticalUpdate
    else if Severity(a) == JString("HIGH") then HighPriority
    else Routine
  }

  /** An analysis with neither key is a medium, optional update with the routine advice. */
  lemma MissingFieldsDefaults(a: map<string, Json>)
    requires "severity" !in a && "mandatory_upgrade" !in a
    ensures Severity(a) == JString("MEDIUM") && !Mandatory(a) && AdviceFor(a) == Routine
  {
  }

  /** A truthy mandatory flag decides the advice whatever the severity says. */
  lemma MandatoryTakesPrecedence(a: map<string, Json>, severity: Json)
    requires Mandatory(a)
    ensures AdviceFor(a["severity" := severity]) == MandatoryUpgrade
  {
  }

  /** Without the flag, only the severity matters, and it is compared as an exact string. */
  lemma SeverityDecidesOtherwise(a: map<string, Json>)
    requires !Mandatory(a)
    ensures AdviceFor(a) == CriticalUpdate <==> Severity(a) == JString("CRITICAL")
    ensures AdviceFor(a) == HighPriority <==> Severity(a) == JString("HIGH")
    ensures AdviceFor(a) == Routine <==> Severity(a) != JString("CRITICAL") && Severity(a) != JString("HIGH")
  {
  }

  /** An alert is sent exactly for the analyses whose messages carry something other than
      the routine advice. */
  lemma AlertIffNotRoutine(a: map<string, Json>)
    ensures Classifier.ShouldSendAlert(a) <==> AdviceFor(a) != Routine
  {
  }
}
