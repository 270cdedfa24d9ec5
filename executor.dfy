/**
 * The Executor stage (`ExecutorAgent.execute`): whatever the plan says, it runs
 * one fixed traceroute and records it.
 */
module Executor {
  import opened Probe
  import opened TraceParser
  import opened Pipeline

  const AgentName := "Executor"
  const TracerouteCommand := "traceroute"

  /**
   * The entry the stage writes for `ctx`: one command, the traceroute of the
   * context's target, and its summary under that command's name.  The plan is
   * looked up in the source but never used, so the entry depends on the
   * target alone.
   */
  predicate Produces(ctx: Context, runner: ProbeRunner, e: Execution) {
    && e.agent == AgentName
    && e.commandsRun == [TracerouteCommand]
    && e.results == map[TracerouteCommand := RunTraceroute(runner(TraceRequest(ctx.target)))]
  }

  /** `ExecutorAgent.execute`. */
  method Execute(ctx: Context, runner: ProbeRunner) returns (e: Execution)
    ensures Produces(ctx, runner, e)
  {
    var commandsRun: seq<string> := [];
    var results: map<string, TraceResult> := map[];
    var trace := RunTraceroute(runner(TraceRequest(ctx.target)));
    commandsRun := commandsRun + [TracerouteCommand];
    results := results[TracerouteCommand := trace];
    e := Execution(AgentName, commandsRun, results);
  }
}
