/**
 * The Orchestrator (`AgentOrchestrator.run_troubleshooting`): it threads one
 * context through the five stages in a fixed order, each writing its own key
 * once, and returns the final context as the diagnosis record.
 */
module Orchestrator {
  import opened Wrappers
  import opened Probe
  import opened PingParser
  import opened TraceParser
  import opened Pipeline
  import Analyzer
  import Planner
  import Executor
  import Validator
  import Reporter

  /**
   * `run_troubleshooting`.  `history` holds the context before the first stage
   * and after each one: every stage finds exactly the keys of the stages before
   * it, adds its own, and leaves everything already written as it was.  No
   * probe failure stops the run: the result always holds all five entries.
   */
  method RunTroubleshooting(issue: string, target: string, runner: ProbeRunner, toNumber: NumberParser)
    returns (ctx: Context, ghost history: seq<Context>)
    ensures ctx.issue == issue && ctx.target == target
    ensures HasStages(ctx, 5)
    ensures |history| == 6 && history[0] == Initial(issue, target) && history[5] == ctx
    ensures HasStages(history[0], 0) && HasStages(history[1], 1) && HasStages(history[2], 2)
    ensures HasStages(history[3], 3) && HasStages(history[4], 4) && HasStages(history[5], 5)
    ensures Keeps(history[0], history[1]) && Keeps(history[1], history[2]) && Keeps(history[2], history[3])
    ensures Keeps(history[3], history[4]) && Keeps(history[4], history[5])
    // Each step's new entry is the stage's rule applied to the context before it
    ensures history[1].analyzerFindings.Some? && Analyzer.Produces(history[0], runner, toNumber, history[1].analyzerFindings.value)
    ensures history[2].plan.Some? && Planner.Produces(history[1], history[2].plan.value)
    ensures history[3].execution.Some? && Executor.Produces(history[2], runner, history[3].execution.value)
    ensures history[4].validation.Some? && Validator.Produces(history[3], history[4].validation.value)
    ensures history[5].report.Some? && Reporter.Produces(history[4], history[5].report.value)
    // Analyzer: the ping of the target
    ensures var p := PingSpec(runner(PingRequest(target)), toNumber);
      ctx.analyzerFindings.value.findings == Findings(p.loss, p.avgTime, Analyzer.Status(p.loss))
    // Planner: from the Analyzer's measurements
    ensures var f := ctx.analyzerFindings.value.findings;
      && ctx.plan.value.strategy == Planner.ChooseStrategy(f.pingLoss, f.avgLatency)
      && ctx.plan.value.priority == Planner.ChoosePriority(f.pingLoss, f.avgLatency)
      && Planner.StepsFor(f.pingLoss, f.avgLatency, ctx.plan.value.steps)
    // Executor: one traceroute of the target, whatever the plan
    ensures ctx.execution.value.commandsRun == [Executor.TracerouteCommand]
    ensures ctx.execution.value.results == map[Executor.TracerouteCommand := RunTraceroute(runner(TraceRequest(target)))]
    // Validator: confidence follows the traceroute's success
    ensures ctx.validation.value.validated
    ensures ctx.validation.value.issuesFound ==
      if RunTraceroute(runner(TraceRequest(target))).Succeeded() then [] else [TracerouteFailed]
    ensures ctx.validation.value.confidence ==
      if RunTraceroute(runner(TraceRequest(target))).Succeeded() then Validator.BaselineConfidence else Validator.ReducedConfidence
    // Reporter: over the four earlier entries
    ensures ctx.report.value.summary == Reporter.Summary(ctx)
    ensures ctx.report.value.details == Details(ctx.analyzerFindings, ctx.plan, ctx.execution, ctx.validation)
    ensures var recs := ctx.report.value.recommendations;
      && |recs| == 2 && recs[1] == ScheduleDiagnostics
      && (recs[0] == AllClear <==> ctx.analyzerFindings.value.findings.status == Normal)
      && (recs[0] == Warning <==> 5.0 < ctx.analyzerFindings.value.findings.pingLoss <= 20.0)
      && (recs[0] == Critical <==> ctx.plan.value.strategy == FocusOnLoss)
  {
    ctx := Initial(issue, target);
    ghost var c0 := ctx;

    var analysis := Analyzer.Execute(ctx, runner, toNumber);
    ctx := ctx.(analyzerFindings := Some(analysis));
    ghost var c1 := ctx;

    var plan := Planner.Execute(ctx);
    ctx := ctx.(plan := Some(plan));
    ghost var c2 := ctx;

    var execution := Executor.Execute(ctx, runner);
    ctx := ctx.(execution := Some(execution));
    ghost var c3 := ctx;
    assert TracerouteSucceeded(c3) <==> RunTraceroute(runner(TraceRequest(target))).Succeeded();

    var validation := Validator.Execute(ctx);
    ctx := ctx.(validation := Some(validation));
    ghost var c4 := ctx;

    var report := Reporter.Execute(ctx);
    ctx := ctx.(report := Some(report));

    history := [c0, c1, c2, c3, c4, ctx];
    assert HasStages(c0, 0) && HasStages(c1, 1) && HasStages(c2, 2) && HasStages(c3, 3) && HasStages(c4, 4);
    assert Keeps(c0, c1) && Keeps(c1, c2) && Keeps(c2, c3) && Keeps(c3, c4) && Keeps(c4, ctx);
    assert Reporter.Summary(ctx) == Reporter.Summary(c4);
    assert FindingsLoss(c4) == analysis.findings.pingLoss;
  }

  /**
   * A run in which every probe raises still completes: the ping counts as
   * 100 % loss, so the link is degraded, the plan is the high-priority loss
   * plan with the three loss steps, the traceroute entry records the failure,
   * confidence drops to 0.5 with one issue, and the report opens with the
   * critical recommendation.
   */
  method RunWithFailingProbes(issue: string, target: string, toNumber: NumberParser, message: string)
    returns (ctx: Context)
    ensures HasStages(ctx, 5) && ctx.issue == issue && ctx.target == target
    ensures ctx.analyzerFindings.value.findings == Findings(100.0, 0.0, Degraded)
    ensures ctx.plan.value.strategy == FocusOnLoss && ctx.plan.value.priority == High
    ensures ctx.plan.value.steps == Planner.LossSteps
    ensures ctx.execution.value.results == map[Executor.TracerouteCommand := TraceFailed(message)]
    ensures ctx.validation.value.confidence == Validator.ReducedConfidence
    ensures ctx.validation.value.issuesFound == [TracerouteFailed]
    ensures ctx.report.value.recommendations == [Critical, ScheduleDiagnostics]
    ensures ctx.report.value.summary == Reporter.SummaryPrefix + Degraded.Name() + Reporter.SummarySuffix
  {
    var failing: ProbeRunner := (req: ProbeRequest) => Raised(message);
    ghost var history;
    ctx, history := RunTroubleshooting(issue, target, failing, toNumber);
    Planner.StepsAreAdditive(100.0, 0.0, ctx.plan.value.steps);
    var recs := ctx.report.value.recommendations;
    assert recs == [recs[0], recs[1]];
  }

  /**
   * A healthy link (ping reports no loss and 10 ms): normal status, the
   * general plan (baseline measurements, continuous monitoring) at medium
   * priority, and a report that opens with "operating normally", whatever
   * traceroute gives.
   */
  method RunOnHealthyLink(issue: string, target: string, runner: ProbeRunner, toNumber: NumberParser)
    returns (ctx: Context)
    requires PingSpec(runner(PingRequest(target)), toNumber).loss == 0.0
    requires PingSpec(runner(PingRequest(target)), toNumber).avgTime == 10.0
    ensures HasStages(ctx, 5)
    ensures ctx.analyzerFindings.value.findings == Findings(0.0, 10.0, Normal)
    ensures ctx.plan.value.strategy == GeneralCheck && ctx.plan.value.priority == Medium
    ensures ctx.plan.value.steps == Planner.BaselineSteps
    ensures ctx.report.value.recommendations == [AllClear, ScheduleDiagnostics]
  {
    ghost var history;
    ctx, history := RunTroubleshooting(issue, target, runner, toNumber);
    ghost var f := ctx.analyzerFindings.value.findings;
    assert f.pingLoss == 0.0 && f.avgLatency == 10.0;
    assert f.status == Normal;
    assert Planner.StepsFor(0.0, 10.0, ctx.plan.value.steps);
    var recs := ctx.report.value.recommendations;
    assert recs[0] == AllClear;
    assert recs == [recs[0], recs[1]];
  }

  /**
   * End to end on an abbreviated iputils summary: ping prints the sample summary
   * and exits with 0, and the whole run reads it as the healthy link above.
   */
  method RunOnSampleOutput(issue: string, target: string, toNumber: NumberParser)
    returns (ctx: Context)
    requires toNumber("0") == Some(0.0) && toNumber("10.0") == Some(10.0)
    ensures HasStages(ctx, 5)
    ensures ctx.analyzerFindings.value.findings == Findings(0.0, 10.0, Normal)
    ensures ctx.plan.value.strategy == GeneralCheck && ctx.plan.value.priority == Medium
    ensures ctx.plan.value.steps == Planner.BaselineSteps
    ensures ctx.report.value.recommendations == [AllClear, ScheduleDiagnostics]
  {
    var stub: ProbeRunner := (req: ProbeRequest) => Completed(SampleOutput, 0);
    SampleSummary(toNumber);
    ctx := RunOnHealthyLink(issue, target, stub, toNumber);
  }

  /**
   * Heavy loss (above 20 %): the loss strategy at high priority, and a report
   * that opens with the critical recommendation.
   */
  method RunWithHeavyLoss(issue: string, target: string, runner: ProbeRunner, toNumber: NumberParser)
    returns (ctx: Context)
    requires PingSpec(runner(PingRequest(target)), toNumber).loss > 20.0
    ensures HasStages(ctx, 5)
    ensures ctx.analyzerFindings.value.findings.status == Degraded
    ensures ctx.plan.value.strategy == FocusOnLoss && ctx.plan.value.priority == High
    ensures |ctx.plan.value.steps| >= 3 && ctx.plan.value.steps[..3] == Planner.LossSteps
    ensures |ctx.report.value.recommendations| == 2 && ctx.report.value.recommendations[0] == Critical
  {
    ghost var history;
    ctx, history := RunTroubleshooting(issue, target, runner, toNumber);
  }
}
