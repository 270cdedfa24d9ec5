/**
 * The Validator stage (`ValidatorAgent.execute`): it always validates, and
 * lowers its confidence when the traceroute did not succeed.
 */
module Validator {
  import opened Pipeline

  const AgentName := "Validator"
  const BaselineConfidence := 0.85
  const ReducedConfidence := 0.5

  /**
   * The entry the stage writes for `ctx`: always validated; full confidence
   * and no issue after a successful traceroute, reduced confidence and the
   * one issue otherwise.  A missing execution entry or traceroute result
   * counts as a failure, like one whose `success` is false.
   */
  predicate Produces(ctx: Context, v: Validation) {
    && v.agent == AgentName && v.validated
    && (TracerouteSucceeded(ctx) ==> v.confidence == BaselineConfidence && v.issuesFound == [])
    && (!TracerouteSucceeded(ctx) ==> v.confidence == ReducedConfidence && v.issuesFound == [TracerouteFailed])
  }

  /** `ValidatorAgent.execute`. */
  method Execute(ctx: Context) returns (v: Validation)
    ensures Produces(ctx, v)
    ensures v.issuesFound == [] <==> TracerouteSucceeded(ctx)
    ensures 0.0 <= v.confidence <= 1.0
  {
    v := Validation(AgentName, true, BaselineConfidence, []);
    if !TracerouteSucceeded(ctx) {
      v := v.(issuesFound := v.issuesFound + [TracerouteFailed]);
      v := v.(confidence := ReducedConfidence);
    }
  }
}
