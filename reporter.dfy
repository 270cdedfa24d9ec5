/**
 * The Reporter stage (`ReporterAgent.execute`): a one-sentence summary around
 * the Analyzer's status, the four earlier entries copied verbatim, and two
 * recommendations.
 */
module Reporter {
  import opened Wrappers
  import opened Pipeline

  const AgentName := "Reporter"
  const SummaryPrefix := "Network status: "
  const SummarySuffix := ". Automated diagnosis completed with multi-agent analysis."
  const UnknownStatus := "unknown"

  /** `context.get('analyzer_findings', {}).get('findings', {}).get('status', 'unknown')`. */
  function ReportedStatus(ctx: Context): (s: string)
    ensures ctx.analyzerFindings.None? ==> s == UnknownStatus
    ensures ctx.analyzerFindings.Some? ==> s == ctx.analyzerFindings.value.findings.status.Name()
  {
    if ctx.analyzerFindings.Some? then ctx.analyzerFindings.value.findings.status.Name() else UnknownStatus
  }

  /** `_generate_summary`: the status sits between a fixed prefix and a fixed suffix. */
  function Summary(ctx: Context): (s: string)
    ensures |s| == |SummaryPrefix| + |ReportedStatus(ctx)| + |SummarySuffix|
    ensures s[..|SummaryPrefix|] == SummaryPrefix
    ensures s[|SummaryPrefix|..|SummaryPrefix| + |ReportedStatus(ctx)|] == ReportedStatus(ctx)
    ensures s[|SummaryPrefix| + |ReportedStatus(ctx)|..] == SummarySuffix
  {
    SummaryPrefix + ReportedStatus(ctx) + SummarySuffix
  }

  /** The status can be read back from the summary: two summaries agree exactly when their statuses do. */
  lemma SummaryDeterminesStatus(c: Context, d: Context)
    ensures Summary(c) == Summary(d) <==> ReportedStatus(c) == ReportedStatus(d)
  {
    if Summary(c) == Summary(d) {
      var n := |SummaryPrefix|;
      assert |ReportedStatus(c)| == |ReportedStatus(d)|;
      assert ReportedStatus(c) == Summary(c)[n..n + |ReportedStatus(c)|];
    }
  }

  /** `_compile_details`: the four earlier entries, absent ones as `None`. */
  function CompileDetails(ctx: Context): Details {
    Details(ctx.analyzerFindings, ctx.plan, ctx.execution, ctx.validation)
  }

  /** The details depend on the four earlier entries only, not on the issue, target or report. */
  lemma DetailsCopyEarlierEntries(c: Context, d: Context)
    ensures CompileDetails(c) == CompileDetails(d) <==>
      c.analyzerFindings == d.analyzerFindings && c.plan == d.plan
      && c.execution == d.execution && c.validation == d.validation
  {
  }

  /**
   * What `_generate_recommendations` promises: exactly two entries; the first
   * grades the Analyzer's loss (0 when missing), the second is always the
   * scheduling advice.
   */
  predicate RecommendationsFor(ctx: Context, recs: seq<Advice>) {
    && |recs| == 2 && recs[1] == ScheduleDiagnostics
    && (FindingsLoss(ctx) > 20.0 ==> recs[0] == Critical)
    && (5.0 < FindingsLoss(ctx) <= 20.0 ==> recs[0] == Warning)
    && (FindingsLoss(ctx) <= 5.0 ==> recs[0] == AllClear)
  }

  /** `_generate_recommendations`: one graded entry, then the scheduling advice. */
  method GenerateRecommendations(ctx: Context) returns (recs: seq<Advice>)
    ensures RecommendationsFor(ctx, recs)
  {
    var loss := FindingsLoss(ctx);
    recs := [];
    if loss > 20.0 {
      recs := recs + [Critical];
    } else if loss > 5.0 {
      recs := recs + [Warning];
    } else {
      recs := recs + [AllClear];
    }
    recs := recs + [ScheduleDiagnostics];
  }

  /** The entry the stage writes for `ctx`: the summary, the copied details and the recommendations. */
  predicate Produces(ctx: Context, r: Report) {
    && r.agent == AgentName
    && r.summary == Summary(ctx)
    && r.details == CompileDetails(ctx)
    && RecommendationsFor(ctx, r.recommendations)
  }

  /** `ReporterAgent.execute`. */
  method Execute(ctx: Context) returns (r: Report)
    ensures Produces(ctx, r)
  {
    var recs := GenerateRecommendations(ctx);
    r := Report(AgentName, Summary(ctx), CompileDetails(ctx), recs);
  }
}
