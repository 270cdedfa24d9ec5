/**
 * The Planner stage (`PlannerAgent.execute`): a strategy chosen by the first
 * matching threshold, a list of steps built additively from two independent
 * thresholds, and a priority.
 */
module Planner {
  import opened Pipeline

  const AgentName := "Planner"

  const LossSteps := [TraceProblemHop, CheckInterfaceErrors, AnalyzeRecentChanges]
  const LatencySteps := [MeasureBandwidth, CheckRoutingLoops, VerifyQosPolicies]
  const BaselineSteps := [BaselineMeasurements, ContinuousMonitoring]

  /**
   * `_create_strategy`, stated as the decision table with mutually exclusive
   * rows: the first of loss > 20, latency > 200, loss > 5 that holds wins.
   */
  function ChooseStrategy(loss: real, latency: real): (s: Strategy)
    ensures loss > 20.0 ==> s == FocusOnLoss
    ensures loss <= 20.0 && latency > 200.0 ==> s == AddressLatency
    ensures 5.0 < loss <= 20.0 && latency <= 200.0 ==> s == InvestigateIntermittent
    ensures loss <= 5.0 && latency <= 200.0 ==> s == GeneralCheck
  {
    if loss > 20.0 then FocusOnLoss
    else if latency > 200.0 then AddressLatency
    else if loss > 5.0 then InvestigateIntermittent
    else GeneralCheck
  }

  /** High priority exactly when loss exceeds 20 % or latency exceeds 200 ms. */
  function ChoosePriority(loss: real, latency: real): (p: Priority)
    ensures p == High <==> loss > 20.0 || latency > 200.0
    ensures p == Medium <==> !(loss > 20.0 || latency > 200.0)
  {
    if loss > 20.0 || latency > 200.0 then High else Medium
  }

  /** Each strategy text is produced by exactly one row of the table. */
  lemma StrategyRows(loss: real, latency: real)
    ensures ChooseStrategy(loss, latency) == FocusOnLoss <==> loss > 20.0
    ensures ChooseStrategy(loss, latency) == AddressLatency <==> loss <= 20.0 && latency > 200.0
    ensures ChooseStrategy(loss, latency) == InvestigateIntermittent <==> 5.0 < loss <= 20.0 && latency <= 200.0
    ensures ChooseStrategy(loss, latency) == GeneralCheck <==> loss <= 5.0 && latency <= 200.0
  {
  }

  /** The priority is high exactly when the strategy came from one of the first two rows. */
  lemma PriorityFollowsStrategy(loss: real, latency: real)
    ensures ChoosePriority(loss, latency) == High <==> ChooseStrategy(loss, latency) in {FocusOnLoss, AddressLatency}
  {
    StrategyRows(loss, latency);
  }

  /**
   * What `_generate_steps` promises: the three loss steps first when loss > 5,
   * the three latency steps last when latency > 100, and the two baseline
   * steps when neither fires; nothing else.
   */
  ghost predicate StepsFor(loss: real, latency: real, steps: seq<Step>) {
    && |steps| == (if loss > 5.0 then 3 else 0) + (if latency > 100.0 then 3 else 0)
                  + (if loss <= 5.0 && latency <= 100.0 then 2 else 0)
    && (loss > 5.0 ==> steps[..3] == LossSteps)
    && (latency > 100.0 ==> steps[|steps| - 3..] == LatencySteps)
    && (loss <= 5.0 && latency <= 100.0 ==> steps == BaselineSteps)
  }

  /** `_generate_steps`: extend with the loss steps, then the latency steps, else the baseline. */
  method GenerateSteps(loss: real, latency: real) returns (steps: seq<Step>)
    ensures StepsFor(loss, latency, steps)
    ensures |steps| in {2, 3, 6}
  {
    steps := [];
    if loss > 5.0 {
      steps := steps + LossSteps;
    }
    if latency > 100.0 {
      steps := steps + LatencySteps;
    }
    if steps == [] {
      steps := BaselineSteps;
    }
  }

  /** `StepsFor` leaves no choice: two step lists meeting it for the same measurements are equal. */
  lemma StepsForUnique(loss: real, latency: real, s: seq<Step>, t: seq<Step>)
    requires StepsFor(loss, latency, s) && StepsFor(loss, latency, t)
    ensures s == t
  {
    if loss > 5.0 && latency > 100.0 {
      assert s == s[..3] + s[3..];
      assert t == t[..3] + t[3..];
    } else if loss > 5.0 {
      assert s == s[..3] && t == t[..3];
    } else if latency > 100.0 {
      assert s == s[|s| - 3..] && t == t[|t| - 3..];
    }
  }

  /** Step generation is a union, not an exclusive choice: both thresholds give both groups, in order. */
  lemma StepsAreAdditive(loss: real, latency: real, steps: seq<Step>)
    requires StepsFor(loss, latency, steps)
    ensures loss > 5.0 && latency > 100.0 ==> steps == LossSteps + LatencySteps
    ensures loss > 5.0 && latency <= 100.0 ==> steps == LossSteps
    ensures loss <= 5.0 && latency > 100.0 ==> steps == LatencySteps
  {
    if loss > 5.0 && latency > 100.0 {
      assert steps == steps[..3] + steps[3..];
    } else if loss > 5.0 {
      assert steps == steps[..3];
    } else if latency > 100.0 {
      assert steps == steps[|steps| - 3..];
    }
  }

  /**
   * The entry the stage writes for `ctx`: strategy, steps and priority for the
   * Analyzer's loss and latency, 0 where the entry is missing; no other key of
   * the context is consulted.
   */
  ghost predicate Produces(ctx: Context, plan: Plan) {
    && plan.agent == AgentName
    && plan.strategy == ChooseStrategy(FindingsLoss(ctx), FindingsLatency(ctx))
    && StepsFor(FindingsLoss(ctx), FindingsLatency(ctx), plan.steps)
    && plan.priority == ChoosePriority(FindingsLoss(ctx), FindingsLatency(ctx))
  }

  /** `PlannerAgent.execute`. */
  method Execute(ctx: Context) returns (plan: Plan)
    ensures Produces(ctx, plan)
  {
    var loss := FindingsLoss(ctx);
    var latency := FindingsLatency(ctx);
    var steps := GenerateSteps(loss, latency);
    plan := Plan(AgentName, ChooseStrategy(loss, latency), steps, ChoosePriority(loss, latency));
  }
}
