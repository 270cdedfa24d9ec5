/**
 * The shared context of one diagnosis run and the records the five stages
 * write into it.  In the source the context is a dictionary that gains one key
 * per stage (`analyzer_findings`, `plan`, `execution`, `validation`,
 * `report`); here it is a record with one optional field per key, `None`
 * meaning the key is absent.  The fixed texts the stages choose from are
 * enumerations whose `Text()` (or `Name()`) is the exact string the source
 * writes.  The lookups at the end are the source's `get(key, default)`
 * chains, with their defaults.
 */
module Pipeline {
  import opened Wrappers
  import opened TraceParser

  /** The Analyzer's classification of the link (`'normal'` / `'degraded'`). */
  datatype LinkStatus = Normal | Degraded {
    function Name(): string {
      match this
      case Normal => "normal"
      case Degraded => "degraded"
    }
  }

  /** The four strategy texts of `_create_strategy`. */
  datatype Strategy = FocusOnLoss | AddressLatency | InvestigateIntermittent | GeneralCheck {
    function Text(): string {
      match this
      case FocusOnLoss => "Focus on packet loss - check route, interfaces, and network congestion"
      case AddressLatency => "Address high latency - analyze routing hops and bandwidth"
      case InvestigateIntermittent => "Investigate intermittent packet loss - monitor for patterns"
      case GeneralCheck => "Perform general health check and optimization"
    }
  }

  /** The eight step texts of `_generate_steps`. */
  datatype Step =
    | TraceProblemHop | CheckInterfaceErrors | AnalyzeRecentChanges
    | MeasureBandwidth | CheckRoutingLoops | VerifyQosPolicies
    | BaselineMeasurements | ContinuousMonitoring
  {
    function Text(): string {
      match this
      case TraceProblemHop => "Run traceroute to identify problem hop"
      case CheckInterfaceErrors => "Check interface statistics for errors"
      case AnalyzeRecentChanges => "Analyze recent network changes"
      case MeasureBandwidth => "Measure bandwidth utilization"
      case CheckRoutingLoops => "Check for routing loops"
      case VerifyQosPolicies => "Verify QoS policies"
      case BaselineMeasurements => "Baseline measurements"
      case ContinuousMonitoring => "Continuous monitoring"
    }
  }

  /** The plan's priority (`'high'` / `'medium'`; the source never produces another). */
  datatype Priority = High | Medium {
    function Name(): string {
      match this
      case High => "high"
      case Medium => "medium"
    }
  }

  /** The one issue the Validator can record. */
  datatype Issue = TracerouteFailed {
    function Text(): string {
      "Traceroute execution failed"
    }
  }

  /** The four recommendation texts of `_generate_recommendations`. */
  datatype Advice = Critical | Warning | AllClear | ScheduleDiagnostics {
    function Text(): string {
      match this
      case Critical => "Critical: Investigate packet loss - possible link failure"
      case Warning => "Warning: Monitor intermittent packet loss"
      case AllClear => "Network operating normally - continue monitoring"
      case ScheduleDiagnostics => "Schedule regular automated diagnostics"
    }
  }

  /** `analysis['findings']`. */
  datatype Findings = Findings(pingLoss: real, avgLatency: real, status: LinkStatus)

  /** What the Analyzer writes under `analyzer_findings`. */
  datatype Analysis = Analysis(agent: string, findings: Findings, recommendation: string)

  /** What the Planner writes under `plan`. */
  datatype Plan = Plan(agent: string, strategy: Strategy, steps: seq<Step>, priority: Priority)

  /** What the Executor writes under `execution`; `results` maps a command name to its summary. */
  datatype Execution = Execution(agent: string, commandsRun: seq<string>, results: map<string, TraceResult>)

  /** What the Validator writes under `validation`. */
  datatype Validation = Validation(agent: string, validated: bool, confidence: real, issuesFound: seq<Issue>)

  /** `report['details']`: the four earlier entries, `None` where the context lacked one. */
  datatype Details = Details(
    analysis: Option<Analysis>,
    planning: Option<Plan>,
    execution: Option<Execution>,
    validation: Option<Validation>)

  /** What the Reporter writes under `report`. */
  datatype Report = Report(agent: string, summary: string, details: Details, recommendations: seq<Advice>)

  /** The context dictionary (its `start_time` stamp left out). */
  datatype Context = Context(
    issue: string,
    target: string,
    analyzerFindings: Option<Analysis>,
    plan: Option<Plan>,
    execution: Option<Execution>,
    validation: Option<Validation>,
    report: Option<Report>)

  /** The context `run_troubleshooting` starts from. */
  function Initial(issue: string, target: string): (c: Context)
    ensures c.issue == issue && c.target == target
    ensures HasStages(c, 0)
  {
    Context(issue, target, None, None, None, None, None)
  }

  /** Exactly the first `k` stage keys, in pipeline order, are present. */
  predicate HasStages(c: Context, k: nat) {
    && (c.analyzerFindings.Some? <==> k >= 1)
    && (c.plan.Some? <==> k >= 2)
    && (c.execution.Some? <==> k >= 3)
    && (c.validation.Some? <==> k >= 4)
    && (c.report.Some? <==> k >= 5)
  }

  /** `after` keeps the issue, the target and every stage entry `before` already had. */
  predicate Keeps(before: Context, after: Context) {
    && after.issue == before.issue
    && after.target == before.target
    && (before.analyzerFindings.Some? ==> after.analyzerFindings == before.analyzerFindings)
    && (before.plan.Some? ==> after.plan == before.plan)
    && (before.execution.Some? ==> after.execution == before.execution)
    && (before.validation.Some? ==> after.validation == before.validation)
    && (before.report.Some? ==> after.report == before.report)
  }

  /** `context.get('analyzer_findings', {}).get('findings', {}).get('ping_loss', 0)`. */
  function FindingsLoss(c: Context): real {
    if c.analyzerFindings.Some? then c.analyzerFindings.value.findings.pingLoss else 0.0
  }

  /** `context.get('analyzer_findings', {}).get('findings', {}).get('avg_latency', 0)`. */
  function FindingsLatency(c: Context): real {
    if c.analyzerFindings.Some? then c.analyzerFindings.value.findings.avgLatency else 0.0
  }

  /** The truth of `context.get('execution', {}).get('results', {}).get('traceroute', {}).get('success')`. */
  predicate TracerouteSucceeded(c: Context) {
    && c.execution.Some?
    && "traceroute" in c.execution.value.results
    && c.execution.value.results["traceroute"].Succeeded()
  }

  /**
   * A later context that keeps the Analyzer's and the Executor's entries gives
   * the later stages the same loss, latency and traceroute outcome.
   */
  lemma LaterStagesSeeSameInputs(before: Context, after: Context)
    requires Keeps(before, after)
    ensures before.analyzerFindings.Some? ==>
      FindingsLoss(after) == FindingsLoss(before) && FindingsLatency(after) == FindingsLatency(before)
    ensures before.execution.Some? ==> (TracerouteSucceeded(after) <==> TracerouteSucceeded(before))
  {
  }
}
