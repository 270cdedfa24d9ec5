/**
 * The Analyzer stage (`AnalyzerAgent.execute`): ping the target, record the
 * loss and average latency, and classify the link.
 */
module Analyzer {
  import opened Probe
  import opened PingParser
  import opened Pipeline

  const AgentName := "Analyzer"
  const Recommendation := "Proceed with detailed route analysis"
  /** The link is degraded above 5 % loss and normal otherwise. */
  function Status(loss: real): (s: LinkStatus)
    ensures s == Degraded <==> loss > 5.0
    ensures s == Normal <==> loss <= 5.0
  {
    if loss > 5.0 then Degraded else Normal
  }

  /**
   * The entry the stage writes for `ctx`: the loss and average of the ping of
   * the context's target, the status of that loss, and the fixed recommendation.
   */
  predicate Produces(ctx: Context, runner: ProbeRunner, toNumber: NumberParser, a: Analysis) {
    var p := PingSpec(runner(PingRequest(ctx.target)), toNumber);
    a == Analysis(AgentName, Findings(p.loss, p.avgTime, Status(p.loss)), Recommendation)
  }

  /**
   * `AnalyzerAgent.execute`.  The context always carries a target here, so the
   * `'8.8.8.8'` fallback of `context.get('target', ...)` never applies.  A
   * failed probe is not an error of the stage: it shows up as loss 100, hence
   * a degraded status.
   */
  method Execute(ctx: Context, runner: ProbeRunner, toNumber: NumberParser) returns (a: Analysis)
    ensures Produces(ctx, runner, toNumber, a)
    ensures a.findings.status == Degraded <==> a.findings.pingLoss > 5.0
    ensures PingSpec(runner(PingRequest(ctx.target)), toNumber).error.Some? ==> a.findings.status == Degraded
  {
    var ping := RunPing(runner, ctx.target, toNumber);
    a := Analysis(AgentName, Findings(ping.loss, ping.avgTime, Status(ping.loss)), Recommendation);
  }
}
