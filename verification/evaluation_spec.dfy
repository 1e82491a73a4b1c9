/**
 * The evaluation engine as mutually recursive functions. Each function
 * takes the requests in flight (`inFlight`, the context's request stack)
 * and the evaluations made so far (`trace`, the context's evaluation
 * list), and returns its outcome together with the evaluation list after
 * it. An `ArgumentError` is a `Failure`; the evaluations appended before
 * it was raised stay in the returned list, as they stay in the context.
 *
 * Termination: every nested evaluation pushes the key of an experiment or
 * parameter of the workspace that is not yet in flight, so the number of
 * workspace keys not in flight shrinks at every nesting.
 */
module EvaluationSpec {
  import opened Wrappers
  import opened RubyValues
  import opened OrderedMaps
  import opened Seqs
  import opened Model
  import opened Workspaces
  import opened Evaluators
  import opened DecisionReasons
  import PropertiesBuilders
  import opened ConditionMatchers
  import opened ExperimentResolvers
  import opened EvaluationFlows
  import Bucketing
  import Text
  import RubyIntegers
  import ValueTypes
  import TargetKeyTypes
  import ExperimentTypes
  import ExperimentStatuses

  /** The wiring of the SDK: the evaluators registered with the delegating evaluator, and the bucketer's hash. */
  datatype Env = Env(evaluators: seq<EvaluatorKind>, hasher: Bucketing.Hasher)

  /** The keys of the workspace still available to nest into. */
  function Measure(request: Request, inFlight: seq<Request>): nat
  {
    |Universe(request.workspace) - KeysOf(inFlight)|
  }

  /** The same, counting the request's own key (which a top-level request need not take from the workspace). */
  function OuterMeasure(request: Request, inFlight: seq<Request>): nat
  {
    |(Universe(request.workspace) + {request.key}) - KeysOf(inFlight)|
  }

  /** `#{request.class}` */
  function ClassName(request: Request): string
  {
    if request.ExperimentRequest? then "Hackle::ExperimentRequest" else "Hackle::RemoteConfigRequest"
  }

  /** An evaluation a nested call may add to the list: of an experiment that is not in flight. */
  predicate FreshFor(inFlight: seq<Request>, evaluation: Evaluation)
  {
    evaluation.ExperimentEvaluation? && EvaluatorKey(EXPERIMENT_KEY_TYPE, evaluation.experiment.id) !in KeysOf(inFlight)
  }

  /** No experiment has two evaluations in the list. */
  predicate DistinctExperiments(evaluations: seq<Evaluation>)
  {
    forall i, j :: 0 <= i < j < |evaluations| && evaluations[i].ExperimentEvaluation? && evaluations[j].ExperimentEvaluation? ==>
      evaluations[i].experiment.id != evaluations[j].experiment.id
  }

  /**
   * How a call may change the evaluation list: it only appends, it appends
   * only evaluations of experiments that are not in flight, and it never
   * appends a second evaluation of an experiment.
   */
  predicate Extends(inFlight: seq<Request>, before: seq<Evaluation>, after: seq<Evaluation>)
  {
    && before <= after
    && (forall i :: |before| <= i < |after| ==> FreshFor(inFlight, after[i]))
    && (DistinctExperiments(before) ==> DistinctExperiments(after))
  }

  /**
   * What every outcome of a flow satisfies: the evaluation list is
   * extended, and an evaluation answers the request and snapshots the
   * whole list.
   */
  predicate FlowOutcome(request: Request, inFlight: seq<Request>, trace: seq<Evaluation>,
                        r: (Result<Option<Evaluation>>, seq<Evaluation>))
  {
    Extends(inFlight, trace, r.1) &&
    (r.0.Ok? && r.0.value.Some? ==> Answers(request, r.0.value.value) && r.0.value.value.targetEvaluations == r.1)
  }

  /** The same for an evaluator, which always returns an evaluation when it does not raise. */
  predicate EvaluatorOutcome(request: Request, inFlight: seq<Request>, trace: seq<Evaluation>,
                             r: (Result<Evaluation>, seq<Evaluation>))
  {
    Extends(inFlight, trace, r.1) &&
    (r.0.Ok? ==> Answers(request, r.0.value) && r.0.value.targetEvaluations == r.1)
  }

  // ----- delegating_evaluator.rb, contextual_evaluator.rb -----

  /**
   * `DelegatingEvaluator#evaluate`: the first registered evaluator that
   * supports the request evaluates it; without one, an ArgumentError.
   */
  function Evaluate(env: Env, request: Request, inFlight: seq<Request>, trace: seq<Evaluation>): (r: (Result<Evaluation>, seq<Evaluation>))
    ensures EvaluatorOutcome(request, inFlight + [request], trace, r)
    ensures (forall k :: 0 <= k < |env.evaluators| ==> !Supports(env.evaluators[k], request)) ==>
      r == (Failure("unsupported EvaluatorRequest [" + ClassName(request) + "]"), trace)
    ensures (exists k :: 0 <= k < |env.evaluators| && Supports(env.evaluators[k], request)) && request.key in KeysOf(inFlight) ==>
      r == (Failure("circular evaluation has occurred"), trace)
    ensures r.0.Ok? ==> request.key !in KeysOf(inFlight)
    decreases OuterMeasure(request, inFlight), 1, 0
  {
    var evaluator := Find(env.evaluators, (k: EvaluatorKind) => Supports(k, request));
    if evaluator.None? then (Failure("unsupported EvaluatorRequest [" + ClassName(request) + "]"), trace)
    else EvaluateContextual(env, evaluator.value, request, inFlight, trace)
  }

  /**
   * `ContextualEvaluator#evaluate`: a request already in flight is a cycle;
   * otherwise it is evaluated with its key pushed (and popped again after,
   * which the functional form needs no step for).
   */
  function EvaluateContextual(env: Env, kind: EvaluatorKind, request: Request, inFlight: seq<Request>,
                              trace: seq<Evaluation>): (r: (Result<Evaluation>, seq<Evaluation>))
    requires Supports(kind, request)
    ensures EvaluatorOutcome(request, inFlight + [request], trace, r)
    ensures request.key in KeysOf(inFlight) ==> r == (Failure("circular evaluation has occurred"), trace)
    decreases OuterMeasure(request, inFlight), 0, 0
  {
    if request.key in KeysOf(inFlight) then (Failure("circular evaluation has occurred"), trace)
    else
      PushShrinks(Universe(request.workspace), inFlight, request);
      EvaluateInternal(env, kind, request, inFlight + [request], trace)
  }

  /** `evaluate_internal` of the evaluator that supports the request. */
  function EvaluateInternal(env: Env, kind: EvaluatorKind, request: Request, inFlight: seq<Request>,
                            trace: seq<Evaluation>): (r: (Result<Evaluation>, seq<Evaluation>))
    requires Supports(kind, request)
    ensures EvaluatorOutcome(request, inFlight, trace, r)
    decreases Measure(request, inFlight), 10, 0
  {
    match kind
    case ExperimentEvaluatorKind => EvaluateExperiment(env, request, inFlight, trace)
    case RemoteConfigEvaluatorKind => EvaluateRemoteConfig(env, request, inFlight, trace)
  }

  // ----- experiment_evaluator.rb -----

  /**
   * `ExperimentEvaluator#evaluate_internal`: the pipeline for the
   * experiment's type; a pipeline that falls through gives the default
   * variation with TRAFFIC_NOT_ALLOCATED.
   */
  function EvaluateExperiment(env: Env, request: Request, inFlight: seq<Request>, trace: seq<Evaluation>): (r: (Result<Evaluation>, seq<Evaluation>))
    requires request.ExperimentRequest?
    ensures EvaluatorOutcome(request, inFlight, trace, r)
    ensures var flow := RunFlow(env, FlowFor(request.experiment.experimentType), request, inFlight, trace);
      && r.1 == flow.1
      && (flow.0.Failure? ==> r.0 == Failure(flow.0.error))
      && (flow.0.Ok? && flow.0.value.Some? ==> r.0 == Ok(flow.0.value.value))
      && (flow.0 == Ok(None) ==> r.0 == Ok(CreateDefaultEvaluation(request, flow.1, TRAFFIC_NOT_ALLOCATED)))
    decreases Measure(request, inFlight), 9, 0
  {
    var (outcome, trace1) := RunFlow(env, FlowFor(request.experiment.experimentType), request, inFlight, trace);
    if outcome.Failure? then (Failure(outcome.error), trace1)
    else if outcome.value.Some? then (Ok(outcome.value.value), trace1)
    else (Ok(CreateDefaultEvaluation(request, trace1, TRAFFIC_NOT_ALLOCATED)), trace1)
  }

  // ----- evaluation_flow.rb, experiment_flow_evaluator.rb -----

  /**
   * `EvaluationFlow#evaluate`: `End` gives nil; a `Decision` runs its step
   * with the rest of the chain as the next flow. A chain holding a step
   * that never delegates never gives nil.
   */
  function RunFlow(env: Env, flow: Flow, request: Request, inFlight: seq<Request>, trace: seq<Evaluation>): (r: (Result<Option<Evaluation>>, seq<Evaluation>))
    requires request.ExperimentRequest?
    ensures FlowOutcome(request, inFlight, trace, r)
    ensures flow == End ==> r == (Ok(None), trace)
    ensures EndsTerminal(flow) ==> r.0 != Ok(None)
    decreases Measure(request, inFlight), 8, 2 * Size(flow)
  {
    match flow
    case End => (Ok(None), trace)
    case Decision(step, next) =>
      match step
      case OverrideEvaluator => OverrideStep(env, next, request, inFlight, trace)
      case IdentifierEvaluator => IdentifierStep(env, next, request, inFlight, trace)
      case ContainerEvaluator => ContainerStep(env, next, request, inFlight, trace)
      case TargetEvaluator => TargetStep(env, next, request, inFlight, trace)
      case DraftEvaluator => DraftStep(env, next, request, inFlight, trace)
      case PausedEvaluator => PausedStep(env, next, request, inFlight, trace)
      case CompletedEvaluator => CompletedStep(env, next, request, inFlight, trace)
      case TrafficAllocateEvaluator => (TrafficAllocateStep(env.hasher, request, trace), trace)
      case TargetRuleEvaluator => TargetRuleStep(env, next, request, inFlight, trace)
      case DefaultRuleEvaluator => (DefaultRuleStep(env.hasher, request, trace), trace)
  }

  /**
   * `OverrideExperimentFlowEvaluator`: an overridden variation is returned
   * with OVERRIDDEN (AB test) or INDIVIDUAL_TARGET_MATCH (feature flag);
   * without one, the next flow decides.
   */
  function OverrideStep(env: Env, next: Flow, request: Request, inFlight: seq<Request>, trace: seq<Evaluation>): (r: (Result<Option<Evaluation>>, seq<Evaluation>))
    requires request.ExperimentRequest?
    ensures FlowOutcome(request, inFlight, trace, r)
    ensures EndsTerminal(next) ==> r.0 != Ok(None)
    ensures UserOverrideResolve(request).Some? ==>
      r == (Ok(Some(CreateEvaluation(request, trace, UserOverrideResolve(request).value,
                                     if request.experiment.experimentType == ExperimentTypes.AB_TEST then OVERRIDDEN
                                     else INDIVIDUAL_TARGET_MATCH))), trace)
    ensures var overridden := ResolveOverride(env, request, inFlight, trace);
      && (overridden.0.Failure? ==> r == (Failure(overridden.0.error), overridden.1))
      && (overridden.0 == Ok(None) ==> r == RunFlow(env, next, request, inFlight, overridden.1))
      && (overridden.0.Ok? && overridden.0.value.Some? ==>
            r == (Ok(Some(CreateEvaluation(request, overridden.1, overridden.0.value.value,
                                           if request.experiment.experimentType == ExperimentTypes.AB_TEST then OVERRIDDEN
                                           else INDIVIDUAL_TARGET_MATCH))), overridden.1))
    decreases Measure(request, inFlight), 8, 2 * Size(next) + 1
  {
    var (overridden, trace1) := ResolveOverride(env, request, inFlight, trace);
    if overridden.Failure? then (Failure(overridden.error), trace1)
    else if overridden.value.None? then RunFlow(env, next, request, inFlight, trace1)
    else
      match request.experiment.experimentType
      case AB_TEST => (Ok(Some(CreateEvaluation(request, trace1, overridden.value.value, OVERRIDDEN))), trace1)
      case FEATURE_FLAG => (Ok(Some(CreateEvaluation(request, trace1, overridden.value.value, INDIVIDUAL_TARGET_MATCH))), trace1)
  }

  /** `IdentifierExperimentFlowEvaluator`: without the experiment's identifier, the default with IDENTIFIER_NOT_FOUND. */
  function IdentifierStep(env: Env, next: Flow, request: Request, inFlight: seq<Request>, trace: seq<Evaluation>): (r: (Result<Option<Evaluation>>, seq<Evaluation>))
    requires request.ExperimentRequest?
    ensures FlowOutcome(request, inFlight, trace, r)
    ensures EndsTerminal(next) ==> r.0 != Ok(None)
    ensures IdentifierOrNil(request).None? ==> r == (Ok(Some(CreateDefaultEvaluation(request, trace, IDENTIFIER_NOT_FOUND))), trace)
    ensures IdentifierOrNil(request).Some? ==> r == RunFlow(env, next, request, inFlight, trace)
    decreases Measure(request, inFlight), 8, 2 * Size(next) + 1
  {
    if IdentifierOrNil(request).None? then (Ok(Some(CreateDefaultEvaluation(request, trace, IDENTIFIER_NOT_FOUND))), trace)
    else RunFlow(env, next, request, inFlight, trace)
  }

  /**
   * `ContainerExperimentFlowEvaluator`: an experiment in a mutual-exclusion
   * container goes on only for users bucketed into a group that lists it.
   */
  function ContainerStep(env: Env, next: Flow, request: Request, inFlight: seq<Request>, trace: seq<Evaluation>): (r: (Result<Option<Evaluation>>, seq<Evaluation>))
    requires request.ExperimentRequest?
    ensures FlowOutcome(request, inFlight, trace, r)
    ensures EndsTerminal(next) ==> r.0 != Ok(None)
    ensures request.experiment.containerId.Some? && request.experiment.containerId.value !in request.workspace.containers ==>
      r == (Failure("container [" + Text.IntToString(request.experiment.containerId.value) + "]"), trace)
    ensures request.experiment.containerId.Some? && request.experiment.containerId.value in request.workspace.containers &&
            ContainerResolve(env.hasher, request, request.workspace.containers[request.experiment.containerId.value]) == Ok(false) ==>
      r == (Ok(Some(CreateDefaultEvaluation(request, trace, NOT_IN_MUTUAL_EXCLUSION_EXPERIMENT))), trace)
    ensures request.experiment.containerId.None? ==> r == RunFlow(env, next, request, inFlight, trace)
    ensures request.experiment.containerId.Some? && request.experiment.containerId.value in request.workspace.containers ==>
      var inGroup := ContainerResolve(env.hasher, request, request.workspace.containers[request.experiment.containerId.value]);
      && (inGroup.Failure? ==> r == (Failure(inGroup.error), trace))
      && (inGroup == Ok(true) ==> r == RunFlow(env, next, request, inFlight, trace))
    decreases Measure(request, inFlight), 8, 2 * Size(next) + 1
  {
    var containerId := request.experiment.containerId;
    if containerId.None? then RunFlow(env, next, request, inFlight, trace)
    else
      var container := GetContainerOrNil(request.workspace, containerId.value);
      if container.None? then (Failure("container [" + Text.IntToString(containerId.value) + "]"), trace)
      else
        var inGroup := ContainerResolve(env.hasher, request, container.value);
        if inGroup.Failure? then (Failure(inGroup.error), trace)
        else if inGroup.value then RunFlow(env, next, request, inFlight, trace)
        else (Ok(Some(CreateDefaultEvaluation(request, trace, NOT_IN_MUTUAL_EXCLUSION_EXPERIMENT))), trace)
  }

  /** `TargetExperimentFlowEvaluator`: AB tests only; a user outside the audiences gets the default with NOT_IN_EXPERIMENT_TARGET. */
  function TargetStep(env: Env, next: Flow, request: Request, inFlight: seq<Request>, trace: seq<Evaluation>): (r: (Result<Option<Evaluation>>, seq<Evaluation>))
    requires request.ExperimentRequest?
    ensures FlowOutcome(request, inFlight, trace, r)
    ensures EndsTerminal(next) ==> r.0 != Ok(None)
    ensures request.experiment.experimentType != ExperimentTypes.AB_TEST ==>
      r == (Failure("experiment type must be AB_TEST [" + Text.IntToString(request.experiment.id) + "]"), trace)
    ensures request.experiment.experimentType == ExperimentTypes.AB_TEST ==>
      var target := InExperimentTarget(env, request, inFlight, trace);
      && (target.0.Failure? ==> r == (Failure(target.0.error), target.1))
      && (target.0 == Ok(false) ==> r == (Ok(Some(CreateDefaultEvaluation(request, target.1, NOT_IN_EXPERIMENT_TARGET))), target.1))
      && (target.0 == Ok(true) ==> r == RunFlow(env, next, request, inFlight, target.1))
    decreases Measure(request, inFlight), 8, 2 * Size(next) + 1
  {
    if request.experiment.experimentType != ExperimentTypes.AB_TEST then
      (Failure("experiment type must be AB_TEST [" + Text.IntToString(request.experiment.id) + "]"), trace)
    else
      var (inTarget, trace1) := InExperimentTarget(env, request, inFlight, trace);
      if inTarget.Failure? then (Failure(inTarget.error), trace1)
      else if inTarget.value then RunFlow(env, next, request, inFlight, trace1)
      else (Ok(Some(CreateDefaultEvaluation(request, trace1, NOT_IN_EXPERIMENT_TARGET))), trace1)
  }

  /** `DraftExperimentFlowEvaluator`: a draft gets the default with EXPERIMENT_DRAFT. */
  function DraftStep(env: Env, next: Flow, request: Request, inFlight: seq<Request>, trace: seq<Evaluation>): (r: (Result<Option<Evaluation>>, seq<Evaluation>))
    requires request.ExperimentRequest?
    ensures FlowOutcome(request, inFlight, trace, r)
    ensures EndsTerminal(next) ==> r.0 != Ok(None)
    ensures request.experiment.status == ExperimentStatuses.DRAFT ==>
      r == (Ok(Some(CreateDefaultEvaluation(request, trace, EXPERIMENT_DRAFT))), trace)
    ensures request.experiment.status != ExperimentStatuses.DRAFT ==> r == RunFlow(env, next, request, inFlight, trace)
    decreases Measure(request, inFlight), 8, 2 * Size(next) + 1
  {
    if request.experiment.status != ExperimentStatuses.DRAFT then RunFlow(env, next, request, inFlight, trace)
    else (Ok(Some(CreateDefaultEvaluation(request, trace, EXPERIMENT_DRAFT))), trace)
  }

  /** `PausedExperimentFlowEvaluator`: a paused experiment gets the default with EXPERIMENT_PAUSED or FEATURE_FLAG_INACTIVE. */
  function PausedStep(env: Env, next: Flow, request: Request, inFlight: seq<Request>, trace: seq<Evaluation>): (r: (Result<Option<Evaluation>>, seq<Evaluation>))
    requires request.ExperimentRequest?
    ensures FlowOutcome(request, inFlight, trace, r)
    ensures EndsTerminal(next) ==> r.0 != Ok(None)
    ensures request.experiment.status == ExperimentStatuses.PAUSED ==>
      r == (Ok(Some(CreateDefaultEvaluation(request, trace,
                                            if request.experiment.experimentType == ExperimentTypes.AB_TEST then EXPERIMENT_PAUSED
                                            else FEATURE_FLAG_INACTIVE))), trace)
    ensures request.experiment.status != ExperimentStatuses.PAUSED ==> r == RunFlow(env, next, request, inFlight, trace)
    decreases Measure(request, inFlight), 8, 2 * Size(next) + 1
  {
    if request.experiment.status != ExperimentStatuses.PAUSED then RunFlow(env, next, request, inFlight, trace)
    else
      match request.experiment.experimentType
      case AB_TEST => (Ok(Some(CreateDefaultEvaluation(request, trace, EXPERIMENT_PAUSED))), trace)
      case FEATURE_FLAG => (Ok(Some(CreateDefaultEvaluation(request, trace, FEATURE_FLAG_INACTIVE))), trace)
  }

  /** `CompletedExperimentFlowEvaluator`: a completed experiment gives its winner with EXPERIMENT_COMPLETED. */
  function CompletedStep(env: Env, next: Flow, request: Request, inFlight: seq<Request>, trace: seq<Evaluation>): (r: (Result<Option<Evaluation>>, seq<Evaluation>))
    requires request.ExperimentRequest?
    ensures FlowOutcome(request, inFlight, trace, r)
    ensures EndsTerminal(next) ==> r.0 != Ok(None)
    ensures request.experiment.status == ExperimentStatuses.COMPLETED && WinnerVariationOrNil(request.experiment).None? ==>
      r == (Failure("winner variation [" + Text.IntToString(request.experiment.id) + "]"), trace)
    ensures request.experiment.status == ExperimentStatuses.COMPLETED && WinnerVariationOrNil(request.experiment).Some? ==>
      r == (Ok(Some(CreateEvaluation(request, trace, WinnerVariationOrNil(request.experiment).value, EXPERIMENT_COMPLETED))), trace)
    ensures request.experiment.status != ExperimentStatuses.COMPLETED ==> r == RunFlow(env, next, request, inFlight, trace)
    decreases Measure(request, inFlight), 8, 2 * Size(next) + 1
  {
    if request.experiment.status != ExperimentStatuses.COMPLETED then RunFlow(env, next, request, inFlight, trace)
    else
      var winner := WinnerVariationOrNil(request.experiment);
      if winner.None? then (Failure("winner variation [" + Text.IntToString(request.experiment.id) + "]"), trace)
      else (Ok(Some(CreateEvaluation(request, trace, winner.value, EXPERIMENT_COMPLETED))), trace)
  }

  /**
   * `TrafficAllocateExperimentFlowEvaluator`: a running AB test buckets the
   * user by its default rule; no slot gives TRAFFIC_NOT_ALLOCATED, a
   * dropped variation VARIATION_DROPPED (both the default variation), any
   * other variation TRAFFIC_ALLOCATED. It never delegates.
   */
  function TrafficAllocateStep(hasher: Bucketing.Hasher, request: Request, trace: seq<Evaluation>): (r: Result<Option<Evaluation>>)
    requires request.ExperimentRequest?
    ensures r.Ok? ==> r.value.Some? && Answers(request, r.value.value) && r.value.value.targetEvaluations == trace
    ensures request.experiment.status != ExperimentStatuses.RUNNING ==>
      r == Failure("experiment status must be RUNNING [" + Text.IntToString(request.experiment.id) + "]")
    ensures r.Ok? ==> r.value.value.reason in {TRAFFIC_NOT_ALLOCATED, VARIATION_DROPPED, TRAFFIC_ALLOCATED}
    ensures r.Ok? && r.value.value.reason == TRAFFIC_ALLOCATED ==>
      ActionResolve(hasher, request, request.experiment.defaultRule).Ok? &&
      ActionResolve(hasher, request, request.experiment.defaultRule).value.Some? &&
      !ActionResolve(hasher, request, request.experiment.defaultRule).value.value.isDropped &&
      r.value.value.variationId == Some(ActionResolve(hasher, request, request.experiment.defaultRule).value.value.id)
    ensures request.experiment.status == ExperimentStatuses.RUNNING && request.experiment.experimentType != ExperimentTypes.AB_TEST ==>
      r == Failure("experiment type must be AB_TEST [" + Text.IntToString(request.experiment.id) + "]")
    ensures request.experiment.status == ExperimentStatuses.RUNNING && request.experiment.experimentType == ExperimentTypes.AB_TEST ==>
      var variation := ActionResolve(hasher, request, request.experiment.defaultRule);
      && (variation.Failure? ==> r == Failure(variation.error))
      && (variation == Ok(None) ==> r == Ok(Some(CreateDefaultEvaluation(request, trace, TRAFFIC_NOT_ALLOCATED))))
      && (variation.Ok? && variation.value.Some? && variation.value.value.isDropped ==>
            r == Ok(Some(CreateDefaultEvaluation(request, trace, VARIATION_DROPPED))))
      && (variation.Ok? && variation.value.Some? && !variation.value.value.isDropped ==>
            r == Ok(Some(CreateEvaluation(request, trace, variation.value.value, TRAFFIC_ALLOCATED))))
  {
    if request.experiment.status != ExperimentStatuses.RUNNING then
      Failure("experiment status must be RUNNING [" + Text.IntToString(request.experiment.id) + "]")
    else if request.experiment.experimentType != ExperimentTypes.AB_TEST then
      Failure("experiment type must be AB_TEST [" + Text.IntToString(request.experiment.id) + "]")
    else
      var variation := ActionResolve(hasher, request, request.experiment.defaultRule);
      if variation.Failure? then Failure(variation.error)
      else if variation.value.None? then Ok(Some(CreateDefaultEvaluation(request, trace, TRAFFIC_NOT_ALLOCATED)))
      else if variation.value.value.isDropped then Ok(Some(CreateDefaultEvaluation(request, trace, VARIATION_DROPPED)))
      else Ok(Some(CreateEvaluation(request, trace, variation.value.value, TRAFFIC_ALLOCATED)))
  }

  /**
   * `TargetRuleExperimentFlowEvaluator`: a running feature flag with the
   * user's identifier takes the first target rule that matches, whose
   * action must decide a variation.
   */
  function TargetRuleStep(env: Env, next: Flow, request: Request, inFlight: seq<Request>, trace: seq<Evaluation>): (r: (Result<Option<Evaluation>>, seq<Evaluation>))
    requires request.ExperimentRequest?
    ensures FlowOutcome(request, inFlight, trace, r)
    ensures EndsTerminal(next) ==> r.0 != Ok(None)
    ensures request.experiment.status != ExperimentStatuses.RUNNING ==>
      r == (Failure("experiment status must be RUNNING [" + Text.IntToString(request.experiment.id) + "]"), trace)
    ensures request.experiment.status == ExperimentStatuses.RUNNING &&
            request.experiment.experimentType == ExperimentTypes.FEATURE_FLAG &&
            IdentifierOrNil(request).None? ==>
      r == RunFlow(env, next, request, inFlight, trace)
    ensures request.experiment.status == ExperimentStatuses.RUNNING && request.experiment.experimentType != ExperimentTypes.FEATURE_FLAG ==>
      r == (Failure("experiment type must be FEATURE_FLAG [" + Text.IntToString(request.experiment.id) + "]"), trace)
    ensures request.experiment.status == ExperimentStatuses.RUNNING && request.experiment.experimentType == ExperimentTypes.FEATURE_FLAG &&
            IdentifierOrNil(request).Some? ==>
      var rule := FirstMatchingRule(env, request, request.experiment.targetRules, inFlight, trace);
      && (rule.0.Failure? ==> r == (Failure(rule.0.error), rule.1))
      && (rule.0 == Ok(None) ==> r == RunFlow(env, next, request, inFlight, rule.1))
      && (rule.0.Ok? && rule.0.value.Some? ==>
            var variation := ActionResolve(env.hasher, request, rule.0.value.value.action);
            && (variation.Failure? ==> r == (Failure(variation.error), rule.1))
            && (variation == Ok(None) ==> r == (Failure("feature flag must decide the variation [" + Text.IntToString(request.experiment.id) + "]"), rule.1))
            && (variation.Ok? && variation.value.Some? ==>
                  r == (Ok(Some(CreateEvaluation(request, rule.1, variation.value.value, TARGET_RULE_MATCH))), rule.1)))
    decreases Measure(request, inFlight), 8, 2 * Size(next) + 1
  {
    if request.experiment.status != ExperimentStatuses.RUNNING then
      (Failure("experiment status must be RUNNING [" + Text.IntToString(request.experiment.id) + "]"), trace)
    else if request.experiment.experimentType != ExperimentTypes.FEATURE_FLAG then
      (Failure("experiment type must be FEATURE_FLAG [" + Text.IntToString(request.experiment.id) + "]"), trace)
    else if IdentifierOrNil(request).None? then RunFlow(env, next, request, inFlight, trace)
    else
      var rule := FirstMatchingRule(env, request, request.experiment.targetRules, inFlight, trace);
      if rule.0.Failure? then (Failure(rule.0.error), rule.1)
      else if rule.0.value.None? then RunFlow(env, next, request, inFlight, rule.1)
      else
        var variation := ActionResolve(env.hasher, request, rule.0.value.value.action);
        if variation.Failure? then (Failure(variation.error), rule.1)
        else if variation.value.None? then
          (Failure("feature flag must decide the variation [" + Text.IntToString(request.experiment.id) + "]"), rule.1)
        else (Ok(Some(CreateEvaluation(request, rule.1, variation.value.value, TARGET_RULE_MATCH))), rule.1)
  }

  /**
   * `DefaultRuleExperimentFlowEvaluator`: a running feature flag's default
   * rule; without the identifier, the default variation. It never
   * delegates.
   */
  function DefaultRuleStep(hasher: Bucketing.Hasher, request: Request, trace: seq<Evaluation>): (r: Result<Option<Evaluation>>)
    requires request.ExperimentRequest?
    ensures r.Ok? ==> r.value.Some? && Answers(request, r.value.value) && r.value.value.targetEvaluations == trace
    ensures r.Ok? ==> r.value.value.reason == DEFAULT_RULE
    ensures request.experiment.status != ExperimentStatuses.RUNNING ==>
      r == Failure("experiment status must be RUNNING [" + Text.IntToString(request.experiment.id) + "]")
    ensures request.experiment.status == ExperimentStatuses.RUNNING &&
            request.experiment.experimentType == ExperimentTypes.FEATURE_FLAG && IdentifierOrNil(request).None? ==>
      r == Ok(Some(CreateDefaultEvaluation(request, trace, DEFAULT_RULE)))
    ensures IdentifierOrNil(request).Some? && ActionResolve(hasher, request, request.experiment.defaultRule) == Ok(None) ==>
      r.Failure?
    ensures request.experiment.status == ExperimentStatuses.RUNNING && request.experiment.experimentType != ExperimentTypes.FEATURE_FLAG ==>
      r == Failure("experiment type must be FEATURE_FLAG [" + Text.IntToString(request.experiment.id) + "]")
    ensures request.experiment.status == ExperimentStatuses.RUNNING && request.experiment.experimentType == ExperimentTypes.FEATURE_FLAG &&
            IdentifierOrNil(request).Some? ==>
      var variation := ActionResolve(hasher, request, request.experiment.defaultRule);
      && (variation.Failure? ==> r == Failure(variation.error))
      && (variation == Ok(None) ==> r == Failure("feature flag must decide the variation [" + Text.IntToString(request.experiment.id) + "]"))
      && (variation.Ok? && variation.value.Some? ==> r == Ok(Some(CreateEvaluation(request, trace, variation.value.value, DEFAULT_RULE))))
  {
    if request.experiment.status != ExperimentStatuses.RUNNING then
      Failure("experiment status must be RUNNING [" + Text.IntToString(request.experiment.id) + "]")
    else if request.experiment.experimentType != ExperimentTypes.FEATURE_FLAG then
      Failure("experiment type must be FEATURE_FLAG [" + Text.IntToString(request.experiment.id) + "]")
    else if IdentifierOrNil(request).None? then Ok(Some(CreateDefaultEvaluation(request, trace, DEFAULT_RULE)))
    else
      var variation := ActionResolve(hasher, request, request.experiment.defaultRule);
      if variation.Failure? then Failure(variation.error)
      else if variation.value.None? then
        Failure("feature flag must decide the variation [" + Text.IntToString(request.experiment.id) + "]")
      else Ok(Some(CreateEvaluation(request, trace, variation.value.value, DEFAULT_RULE)))
  }

  // ----- experiment_resolver.rb (the resolvers that match targets) -----

  /**
   * `ExperimentOverrideResolver#resolve_or_nil`: the user override, else
   * the action of the first segment override whose target matches.
   */
  function ResolveOverride(env: Env, request: Request, inFlight: seq<Request>, trace: seq<Evaluation>): (r: (Result<Option<Variation>>, seq<Evaluation>))
    requires request.ExperimentRequest?
    ensures Extends(inFlight, trace, r.1)
    ensures UserOverrideResolve(request).Some? ==> r == (Ok(UserOverrideResolve(request)), trace)
    ensures r.0.Ok? && r.0.value.Some? ==> r.0.value.value in request.experiment.variations
    ensures UserOverrideResolve(request).None? ==>
      var rule := FirstMatchingRule(env, request, request.experiment.segmentOverrides, inFlight, trace);
      && (rule.0.Failure? ==> r == (Failure(rule.0.error), rule.1))
      && (rule.0 == Ok(None) ==> r == (Ok(None), rule.1))
      && (rule.0.Ok? && rule.0.value.Some? ==> r == (ActionResolve(env.hasher, request, rule.0.value.value.action), rule.1))
    decreases Measure(request, inFlight), 7, 0
  {
    var user := UserOverrideResolve(request);
    if user.Some? then (Ok(user), trace)
    else
      var (rule, trace1) := FirstMatchingRule(env, request, request.experiment.segmentOverrides, inFlight, trace);
      if rule.Failure? then (Failure(rule.error), trace1)
      else if rule.value.None? then (Ok(None), trace1)
      else (ActionResolve(env.hasher, request, rule.value.value.action), trace1)
  }

  /**
   * `Array#find` over rules with the target matcher: the first rule whose
   * target matches; the rules after it are not looked at.
   */
  function FirstMatchingRule(env: Env, request: Request, rules: seq<TargetRule>, inFlight: seq<Request>,
                             trace: seq<Evaluation>): (r: (Result<Option<TargetRule>>, seq<Evaluation>))
    ensures Extends(inFlight, trace, r.1)
    ensures rules == [] ==> r == (Ok(None), trace)
    ensures r.0.Ok? && r.0.value.Some? ==> r.0.value.value in rules
    decreases Measure(request, inFlight), 6, |rules|
  {
    if |rules| == 0 then (Ok(None), trace)
    else
      var (matches, trace1) := TargetMatches(env, request, rules[0].target, inFlight, trace);
      if matches.Failure? then (Failure(matches.error), trace1)
      else if matches.value then (Ok(Some(rules[0])), trace1)
      else
        var (rest, trace2) := FirstMatchingRule(env, request, rules[1..], inFlight, trace1);
        assert rest.Ok? && rest.value.Some? ==> rest.value.value in rules;
        (rest, trace2)
  }

  /** `ExperimentTargetDeterminer#user_in_experiment_target?`: no audience lets everyone in; otherwise some audience must match. */
  function InExperimentTarget(env: Env, request: Request, inFlight: seq<Request>, trace: seq<Evaluation>): (r: (Result<bool>, seq<Evaluation>))
    requires request.ExperimentRequest?
    ensures Extends(inFlight, trace, r.1)
    ensures request.experiment.targetAudiences == [] ==> r == (Ok(true), trace)
    ensures request.experiment.targetAudiences != [] ==>
      r == AnyTargetMatches(env, request, request.experiment.targetAudiences, inFlight, trace)
    decreases Measure(request, inFlight), 7, 0
  {
    if |request.experiment.targetAudiences| == 0 then (Ok(true), trace)
    else AnyTargetMatches(env, request, request.experiment.targetAudiences, inFlight, trace)
  }

  /** `Array#any?` over targets with the target matcher, stopping at the first match. */
  function AnyTargetMatches(env: Env, request: Request, targets: seq<Target>, inFlight: seq<Request>,
                            trace: seq<Evaluation>): (r: (Result<bool>, seq<Evaluation>))
    ensures Extends(inFlight, trace, r.1)
    ensures targets == [] ==> r == (Ok(false), trace)
    decreases Measure(request, inFlight), 6, |targets|
  {
    if |targets| == 0 then (Ok(false), trace)
    else
      var (matches, trace1) := TargetMatches(env, request, targets[0], inFlight, trace);
      if matches.Failure? then (Failure(matches.error), trace1)
      else if matches.value then (Ok(true), trace1)
      else AnyTargetMatches(env, request, targets[1..], inFlight, trace1)
  }

  // ----- target_matcher.rb, condition matchers -----

  /** `TargetMatcher#matches`: every condition matches, checked in order up to the first that does not. */
  function TargetMatches(env: Env, request: Request, target: Target, inFlight: seq<Request>,
                         trace: seq<Evaluation>): (r: (Result<bool>, seq<Evaluation>))
    ensures Extends(inFlight, trace, r.1)
    ensures target.conditions == [] ==> r == (Ok(true), trace)
    decreases Measure(request, inFlight), 5, |target.conditions| + 1
  {
    AllConditionsMatch(env, request, target.conditions, inFlight, trace)
  }

  /** `Array#all?` over conditions with `condition_matches`. */
  function AllConditionsMatch(env: Env, request: Request, conditions: seq<TargetCondition>, inFlight: seq<Request>,
                              trace: seq<Evaluation>): (r: (Result<bool>, seq<Evaluation>))
    ensures Extends(inFlight, trace, r.1)
    ensures conditions == [] ==> r == (Ok(true), trace)
    ensures r.0 == Ok(true) && |conditions| > 0 ==> ConditionMatches(env, request, conditions[0], inFlight, trace).0 == Ok(true)
    decreases Measure(request, inFlight), 5, |conditions|
  {
    if |conditions| == 0 then (Ok(true), trace)
    else
      var (first, trace1) := ConditionMatches(env, request, conditions[0], inFlight, trace);
      if first.Failure? then (Failure(first.error), trace1)
      else if !first.value then (Ok(false), trace1)
      else AllConditionsMatch(env, request, conditions[1..], inFlight, trace1)
  }

  /**
   * `TargetMatcher#condition_matches` with `ConditionMatcherFactory#get`:
   * user conditions and segments are looked up without the context;
   * experiment references may evaluate another experiment.
   */
  function ConditionMatches(env: Env, request: Request, condition: TargetCondition, inFlight: seq<Request>,
                            trace: seq<Evaluation>): (r: (Result<bool>, seq<Evaluation>))
    ensures Extends(inFlight, trace, r.1)
    ensures MatcherFor(condition.key.keyType) == UserConditionMatcher ==>
      r == (UserConditionMatches(request.user, condition), trace)
    ensures MatcherFor(condition.key.keyType) == SegmentConditionMatcher ==>
      r == (SegmentConditionMatches(request.workspace, request.user, condition), trace)
    ensures MatcherFor(condition.key.keyType) == ExperimentConditionMatcher ==>
      r == ExperimentConditionMatches(env, request, condition, inFlight, trace)
    decreases Measure(request, inFlight), 4, 0
  {
    match MatcherFor(condition.key.keyType)
    case UserConditionMatcher => (UserConditionMatches(request.user, condition), trace)
    case SegmentConditionMatcher => (SegmentConditionMatches(request.workspace, request.user, condition), trace)
    case ExperimentConditionMatcher => ExperimentConditionMatches(env, request, condition, inFlight, trace)
  }

  /** `ExperimentConditionMatcher#matches`: AB_TEST and FEATURE_FLAG keys each go to their own matcher. */
  function ExperimentConditionMatches(env: Env, request: Request, condition: TargetCondition, inFlight: seq<Request>,
                                      trace: seq<Evaluation>): (r: (Result<bool>, seq<Evaluation>))
    ensures Extends(inFlight, trace, r.1)
    ensures condition.key.keyType == TargetKeyTypes.AB_TEST ==>
      r == ExperimentEvaluatorMatches(env, AbTestMatcher, request, condition, inFlight, trace)
    ensures condition.key.keyType == TargetKeyTypes.FEATURE_FLAG ==>
      r == ExperimentEvaluatorMatches(env, FeatureFlagMatcher, request, condition, inFlight, trace)
    ensures condition.key.keyType !in {TargetKeyTypes.AB_TEST, TargetKeyTypes.FEATURE_FLAG} ==>
      r == (Failure("unsupported TargetKeyType [" + TargetKeyTypes.Name(condition.key.keyType) + "]"), trace)
    decreases Measure(request, inFlight), 3, 1
  {
    match condition.key.keyType
    case AB_TEST => ExperimentEvaluatorMatches(env, AbTestMatcher, request, condition, inFlight, trace)
    case FEATURE_FLAG => ExperimentEvaluatorMatches(env, FeatureFlagMatcher, request, condition, inFlight, trace)
    case _ => (Failure("unsupported TargetKeyType [" + TargetKeyTypes.Name(condition.key.keyType) + "]"), trace)
  }

  /**
   * `ExperimentEvaluatorMatcher#matches`: the key names an experiment (or
   * feature flag) by key; an evaluation of it already in the context is
   * reused, otherwise it is evaluated with default key `A`, resolved, and
   * appended to the context.
   */
  function ExperimentEvaluatorMatches(env: Env, kind: ExperimentMatcherKind, request: Request, condition: TargetCondition,
                                      inFlight: seq<Request>, trace: seq<Evaluation>): (r: (Result<bool>, seq<Evaluation>))
    ensures Extends(inFlight, trace, r.1)
    ensures RubyIntegers.IntegerOrNil(condition.key.name).None? ==>
      r == (Failure("invalid key [" + TargetKeyTypes.Name(condition.key.keyType) + ", " + condition.key.name + "]"), trace)
    ensures RubyIntegers.IntegerOrNil(condition.key.name).Some? &&
            ConditionMatchers.ExperimentOrNil(kind, request.workspace, RubyIntegers.IntegerOrNil(condition.key.name).value).None? ==>
      r == (Ok(false), trace)
    ensures RubyIntegers.IntegerOrNil(condition.key.name).Some? &&
            ConditionMatchers.ExperimentOrNil(kind, request.workspace, RubyIntegers.IntegerOrNil(condition.key.name).value).Some? ==>
      var experiment := ConditionMatchers.ExperimentOrNil(kind, request.workspace, RubyIntegers.IntegerOrNil(condition.key.name).value).value;
      (EvaluationOrNil(trace, experiment.id).Some? ==>
         r == (EvaluationMatches(kind, EvaluationOrNil(trace, experiment.id).value, condition.targetMatch), trace)) &&
      (EvaluationOrNil(trace, experiment.id).None? && r.0.Ok? ==>
         |r.1| > |trace| && IsEvaluationOf(r.1[|r.1| - 1], experiment.id) &&
         r.0 == EvaluationMatches(kind, r.1[|r.1| - 1], condition.targetMatch)) &&
      (EvaluationOrNil(trace, experiment.id).None? ==>
         var nested := EvaluateNestedExperiment(env, kind, request, RubyIntegers.IntegerOrNil(condition.key.name).value,
                                                experiment, inFlight, trace);
         && (nested.0.Failure? ==> r == (Failure(nested.0.error), nested.1))
         && (nested.0.Ok? ==> r == (EvaluationMatches(kind, nested.0.value, condition.targetMatch), nested.1)))
    decreases Measure(request, inFlight), 3, 0
  {
    var key := RubyIntegers.IntegerOrNil(condition.key.name);
    if key.None? then
      (Failure("invalid key [" + TargetKeyTypes.Name(condition.key.keyType) + ", " + condition.key.name + "]"), trace)
    else
      var experiment := ConditionMatchers.ExperimentOrNil(kind, request.workspace, key.value);
      if experiment.None? then (Ok(false), trace)
      else
        var memo := EvaluationOrNil(trace, experiment.value.id);
        if memo.Some? then (EvaluationMatches(kind, memo.value, condition.targetMatch), trace)
        else
          var nested := EvaluateNestedExperiment(env, kind, request, key.value, experiment.value, inFlight, trace);
          if nested.0.Failure? then (Failure(nested.0.error), nested.1)
          else (EvaluationMatches(kind, nested.0.value, condition.targetMatch), nested.1)
  }

  /**
   * The part of `matches` that evaluates an experiment not yet in the
   * context: with default key `A`, resolved, and appended to the context.
   */
  function EvaluateNestedExperiment(env: Env, kind: ExperimentMatcherKind, request: Request, key: int, experiment: Experiment,
                                    inFlight: seq<Request>, trace: seq<Evaluation>): (r: (Result<Evaluation>, seq<Evaluation>))
    requires ConditionMatchers.ExperimentOrNil(kind, request.workspace, key) == Some(experiment)
    requires EvaluationOrNil(trace, experiment.id).None?
    ensures Extends(inFlight, trace, r.1)
    ensures r.0.Ok? ==> |r.1| > |trace| && r.1[|r.1| - 1] == r.0.value && IsEvaluationOf(r.0.value, experiment.id)
    ensures (NestedKeyInUniverse(request, key, experiment);
      UniverseAbsorbs(Universe(request.workspace), CreateExperimentRequestBy(request, experiment).key, KeysOf(inFlight));
      var nested := Evaluate(env, CreateExperimentRequestBy(request, experiment), inFlight, trace);
      && (nested.0.Failure? ==> r == (Failure(nested.0.error), nested.1))
      && (nested.0.Ok? && !nested.0.value.ExperimentEvaluation? ==>
            r == (Failure("unexpected evaluation: Hackle::RemoteConfigEvaluation (expected: ExperimentEvaluation)"), nested.1))
      && (nested.0.Ok? && nested.0.value.ExperimentEvaluation? ==>
            var resolved := ResolveEvaluation(kind, request, nested.0.value);
            r == (Ok(resolved), nested.1 + [resolved])))
    decreases Measure(request, inFlight), 2, 0
  {
    var nested := CreateExperimentRequestBy(request, experiment);
    NestedKeyInUniverse(request, key, experiment);
    UniverseAbsorbs(Universe(request.workspace), nested.key, KeysOf(inFlight));
    var (evaluation, trace1) := Evaluate(env, nested, inFlight, trace);
    if evaluation.Failure? then (Failure(evaluation.error), trace1)
    else if !evaluation.value.ExperimentEvaluation? then
      (Failure("unexpected evaluation: Hackle::RemoteConfigEvaluation (expected: ExperimentEvaluation)"), trace1)
    else
      var resolved := ResolveEvaluation(kind, request, evaluation.value);
      AppendNested(inFlight, nested, trace, trace1, resolved);
      (Ok(resolved), trace1 + [resolved])
  }

  /**
   * Appending the evaluation of a nested experiment keeps the list
   * extended: the experiment was not in flight, had no evaluation before,
   * and was in flight while the nested call appended its own.
   */
  lemma AppendNested(inFlight: seq<Request>, nested: Request, trace: seq<Evaluation>, trace1: seq<Evaluation>,
                     resolved: Evaluation)
    requires Extends(inFlight + [nested], trace, trace1)
    requires nested.key !in KeysOf(inFlight)
    requires resolved.ExperimentEvaluation? && nested.key == EvaluatorKey(EXPERIMENT_KEY_TYPE, resolved.experiment.id)
    requires forall i :: 0 <= i < |trace| ==> !IsEvaluationOf(trace[i], resolved.experiment.id)
    ensures Extends(inFlight, trace, trace1 + [resolved])
  {
    KeysOfPush(inFlight, nested);
    var after := trace1 + [resolved];
    forall i | |trace| <= i < |after|
      ensures FreshFor(inFlight, after[i])
    {
      if i < |trace1| {
        assert after[i] == trace1[i];
      }
    }
    if DistinctExperiments(trace) {
      forall i, j | 0 <= i < j < |after| && after[i].ExperimentEvaluation? && after[j].ExperimentEvaluation?
        ensures after[i].experiment.id != after[j].experiment.id
      {
        if j == |trace1| {
          if i < |trace| {
            assert after[i] == trace[i];
            assert !IsEvaluationOf(trace[i], resolved.experiment.id);
          } else {
            assert after[i] == trace1[i];
            assert FreshFor(inFlight + [nested], trace1[i]);
          }
        } else {
          assert after[i] == trace1[i] && after[j] == trace1[j];
        }
      }
    }
  }

  // ----- remote_config_determiner.rb, remote_config_evaluator.rb -----

  /** `RemoteConfigTargetRuleDeterminer#determine_or_nil`: the first rule the rule matcher accepts. */
  function DetermineRemoteConfigRule(env: Env, request: Request, rules: seq<RemoteConfigTargetRule>, inFlight: seq<Request>,
                                     trace: seq<Evaluation>): (r: (Result<Option<RemoteConfigTargetRule>>, seq<Evaluation>))
    requires request.RemoteConfigRequest?
    ensures Extends(inFlight, trace, r.1)
    ensures rules == [] ==> r == (Ok(None), trace)
    ensures r.0.Ok? && r.0.value.Some? ==> r.0.value.value in rules
    decreases Measure(request, inFlight), 6, |rules|
  {
    if |rules| == 0 then (Ok(None), trace)
    else
      var (matches, trace1) := RemoteConfigRuleMatches(env, request, rules[0], inFlight, trace);
      if matches.Failure? then (Failure(matches.error), trace1)
      else if matches.value then (Ok(Some(rules[0])), trace1)
      else
        var (rest, trace2) := DetermineRemoteConfigRule(env, request, rules[1..], inFlight, trace1);
        assert rest.Ok? && rest.value.Some? ==> rest.value.value in rules;
        (rest, trace2)
  }

  /**
   * `RemoteConfigTargetRuleMatcher#matches`: the target must match, then
   * the user must have the parameter's identifier and be bucketed into
   * some slot of the rule's bucket (which must exist).
   */
  function RemoteConfigRuleMatches(env: Env, request: Request, rule: RemoteConfigTargetRule, inFlight: seq<Request>,
                                   trace: seq<Evaluation>): (r: (Result<bool>, seq<Evaluation>))
    requires request.RemoteConfigRequest?
    ensures Extends(inFlight, trace, r.1)
    ensures TargetMatches(env, request, rule.target, inFlight, trace).0 == Ok(false) ==>
      r == (Ok(false), TargetMatches(env, request, rule.target, inFlight, trace).1)
    ensures r.0 == Ok(true) ==>
      TargetMatches(env, request, rule.target, inFlight, trace).0 == Ok(true) &&
      Get(request.user.identifiers, request.parameter.identifierType).Some? &&
      rule.bucketId in request.workspace.buckets &&
      Bucketing.Bucketing(env.hasher, request.workspace.buckets[rule.bucketId],
                          Get(request.user.identifiers, request.parameter.identifierType).value).Ok? &&
      Bucketing.Bucketing(env.hasher, request.workspace.buckets[rule.bucketId],
                          Get(request.user.identifiers, request.parameter.identifierType).value).value.Some?
    ensures var target := TargetMatches(env, request, rule.target, inFlight, trace);
      && r.1 == target.1
      && (target.0.Failure? ==> r.0 == Failure(target.0.error))
      && (target.0 == Ok(true) ==>
            var identifier := Get(request.user.identifiers, request.parameter.identifierType);
            && (identifier.None? ==> r.0 == Ok(false))
            && (identifier.Some? && rule.bucketId !in request.workspace.buckets ==>
                  r.0 == Failure("bucket [" + Text.IntToString(rule.bucketId) + "]"))
            && (identifier.Some? && rule.bucketId in request.workspace.buckets ==>
                  var slot := Bucketing.Bucketing(env.hasher, request.workspace.buckets[rule.bucketId], identifier.value);
                  && (slot.Failure? ==> r.0 == Failure(slot.error))
                  && (slot.Ok? ==> r.0 == Ok(slot.value.Some?))))
    decreases Measure(request, inFlight), 6, 0
  {
    var (matches, trace1) := TargetMatches(env, request, rule.target, inFlight, trace);
    if matches.Failure? then (Failure(matches.error), trace1)
    else if !matches.value then (Ok(false), trace1)
    else
      var identifier := Get(request.user.identifiers, request.parameter.identifierType);
      if identifier.None? then (Ok(false), trace1)
      else
        var bucket := GetBucketOrNil(request.workspace, rule.bucketId);
        if bucket.None? then (Failure("bucket [" + Text.IntToString(rule.bucketId) + "]"), trace1)
        else
          var slot := Bucketing.Bucketing(env.hasher, bucket.value, identifier.value);
          if slot.Failure? then (Failure(slot.error), trace1)
          else (Ok(slot.value.Some?), trace1)
  }

  /** The properties every remote-config evaluation starts from: the requested type's name and the caller's default. */
  function RequestProperties(request: Request): (r: seq<(string, Value)>)
    requires request.RemoteConfigRequest?
    ensures PropertiesBuilders.PropertiesValid(r) && |r| <= 2
    ensures Get(r, "requestValueType") == Some(Str(ValueTypes.Name(request.requiredType)))
    ensures Get(r, "requestDefaultValue") == PropertiesBuilders.SanitizeValueOrNil("requestDefaultValue", request.defaultValue)
  {
    var withType := PropertiesBuilders.AddProperty([], Str("requestValueType"), Str(ValueTypes.Name(request.requiredType)));
    PropertiesBuilders.AddPropertyEffect([], Str("requestValueType"), Str(ValueTypes.Name(request.requiredType)), "requestDefaultValue");
    PropertiesBuilders.AddPropertyEffect(withType, Str("requestDefaultValue"), request.defaultValue, "requestValueType");
    PropertiesBuilders.AddProperty(withType, Str("requestDefaultValue"), request.defaultValue)
  }

  /** The properties after a target rule matched: its key and name on top of the request's. */
  function RuleProperties(request: Request, rule: RemoteConfigTargetRule): (r: seq<(string, Value)>)
    requires request.RemoteConfigRequest?
    ensures PropertiesBuilders.PropertiesValid(r) && |r| <= 4
    ensures Get(r, "requestValueType") == Some(Str(ValueTypes.Name(request.requiredType)))
    ensures |rule.key| <= PropertiesBuilders.MAX_PROPERTY_VALUE_LENGTH ==> Get(r, "targetRuleKey") == Some(Str(rule.key))
    ensures |rule.name| <= PropertiesBuilders.MAX_PROPERTY_VALUE_LENGTH ==> Get(r, "targetRuleName") == Some(Str(rule.name))
    ensures Get(r, "requestDefaultValue") == Get(RequestProperties(request), "requestDefaultValue")
  {
    var base := RequestProperties(request);
    var withKey := PropertiesBuilders.AddProperty(base, Str("targetRuleKey"), Str(rule.key));
    PropertiesBuilders.AddPropertyEffect(base, Str("targetRuleKey"), Str(rule.key), "requestValueType");
    PropertiesBuilders.AddPropertyEffect(base, Str("targetRuleKey"), Str(rule.key), "requestDefaultValue");
    PropertiesBuilders.AddPropertyEffect(withKey, Str("targetRuleName"), Str(rule.name), "requestDefaultValue");
    PropertiesBuilders.AddPropertyEffect(withKey, Str("targetRuleName"), Str(rule.name), "requestValueType");
    PropertiesBuilders.AddPropertyEffect(withKey, Str("targetRuleName"), Str(rule.name), "targetRuleKey");
    PropertiesBuilders.AddProperty(withKey, Str("targetRuleName"), Str(rule.name))
  }

  /**
   * `RemoteConfigEvaluator#evaluate_internal`: without the parameter's
   * identifier, the caller's default with IDENTIFIER_NOT_FOUND; otherwise
   * the value of the first matching target rule (TARGET_RULE_MATCH) or the
   * parameter's default value (DEFAULT_RULE), either of them replaced by
   * the caller's default when it has the wrong type (TYPE_MISMATCH).
   */
  function EvaluateRemoteConfig(env: Env, request: Request, inFlight: seq<Request>, trace: seq<Evaluation>): (r: (Result<Evaluation>, seq<Evaluation>))
    requires request.RemoteConfigRequest?
    ensures EvaluatorOutcome(request, inFlight, trace, r)
    ensures r.0.Ok? ==> RemoteConfigOutcome(request, r.0.value)
    ensures Get(request.user.identifiers, request.parameter.identifierType).None? ==>
      r.0.Ok? && r.0.value.reason == IDENTIFIER_NOT_FOUND && r.1 == trace
    ensures Get(request.user.identifiers, request.parameter.identifierType).None? ==>
      r == (Ok(CreateRemoteConfigEvaluation(request, trace, None, request.defaultValue, IDENTIFIER_NOT_FOUND,
                                            RequestProperties(request))), trace)
    ensures Get(request.user.identifiers, request.parameter.identifierType).Some? ==>
      var rule := DetermineRemoteConfigRule(env, request, request.parameter.targetRules, inFlight, trace);
      && (rule.0.Failure? ==> r == (Failure(rule.0.error), rule.1))
      && (rule.0 == Ok(None) ==>
            r == (Ok(ValueEvaluation(request, rule.1, request.parameter.defaultValue, DEFAULT_RULE, RequestProperties(request))), rule.1))
      && (rule.0.Ok? && rule.0.value.Some? ==>
            r == (Ok(ValueEvaluation(request, rule.1, rule.0.value.value.value, TARGET_RULE_MATCH,
                                     RuleProperties(request, rule.0.value.value))), rule.1))
    decreases Measure(request, inFlight), 9, 0
  {
    var properties := RequestProperties(request);
    if Get(request.user.identifiers, request.parameter.identifierType).None? then
      IdentifierNotFoundOutcome(request, trace, properties);
      (Ok(CreateRemoteConfigEvaluation(request, trace, None, request.defaultValue, IDENTIFIER_NOT_FOUND, properties)), trace)
    else
      var rule := DetermineRemoteConfigRule(env, request, request.parameter.targetRules, inFlight, trace);
      if rule.0.Failure? then (Failure(rule.0.error), rule.1)
      else if rule.0.value.Some? then
        var withRule := RuleProperties(request, rule.0.value.value);
        ValueEvaluationOutcome(request, rule.1, rule.0.value.value.value, TARGET_RULE_MATCH, withRule);
        (Ok(ValueEvaluation(request, rule.1, rule.0.value.value.value, TARGET_RULE_MATCH, withRule)), rule.1)
      else
        ValueEvaluationOutcome(request, rule.1, request.parameter.defaultValue, DEFAULT_RULE, properties);
        (Ok(ValueEvaluation(request, rule.1, request.parameter.defaultValue, DEFAULT_RULE, properties)), rule.1)
  }

  // ----- what the two pipelines decide -----

  /** An AB test's user override wins over every status check: drafts, paused and completed tests included. */
  lemma AbTestOverrideWins(env: Env, request: Request, inFlight: seq<Request>, trace: seq<Evaluation>)
    requires request.ExperimentRequest? && request.experiment.experimentType == ExperimentTypes.AB_TEST
    requires UserOverrideResolve(request).Some?
    ensures EvaluateExperiment(env, request, inFlight, trace) ==
      (Ok(CreateEvaluation(request, trace, UserOverrideResolve(request).value, OVERRIDDEN)), trace)
  {
    PipelineHeads();
    OverrideFirst(env, Chain(AB_TEST_STEPS[1..]), request, inFlight, trace);
  }

  /** A flow that starts with the override check gives an AB test's overridden variation, whatever follows. */
  lemma OverrideFirst(env: Env, rest: Flow, request: Request, inFlight: seq<Request>, trace: seq<Evaluation>)
    requires request.ExperimentRequest? && request.experiment.experimentType == ExperimentTypes.AB_TEST
    requires UserOverrideResolve(request).Some?
    ensures RunFlow(env, Decision(OverrideEvaluator, rest), request, inFlight, trace) ==
      (Ok(Some(CreateEvaluation(request, trace, UserOverrideResolve(request).value, OVERRIDDEN))), trace)
  {
  }

  /** A feature flag in draft is off (its default variation) whatever its overrides say. */
  lemma FeatureFlagDraftIgnoresOverrides(env: Env, request: Request, inFlight: seq<Request>, trace: seq<Evaluation>)
    requires request.ExperimentRequest? && request.experiment.experimentType == ExperimentTypes.FEATURE_FLAG
    requires request.experiment.status == ExperimentStatuses.DRAFT
    ensures EvaluateExperiment(env, request, inFlight, trace) ==
      (Ok(CreateDefaultEvaluation(request, trace, EXPERIMENT_DRAFT)), trace)
  {
    PipelineHeads();
    DraftFirst(env, Decision(PausedEvaluator, Chain(FEATURE_FLAG_STEPS[2..])), request, inFlight, trace);
  }

  /** A flow that starts with the draft check gives a draft its default variation, whatever follows. */
  lemma DraftFirst(env: Env, rest: Flow, request: Request, inFlight: seq<Request>, trace: seq<Evaluation>)
    requires request.ExperimentRequest? && request.experiment.status == ExperimentStatuses.DRAFT
    ensures RunFlow(env, Decision(DraftEvaluator, rest), request, inFlight, trace) ==
      (Ok(Some(CreateDefaultEvaluation(request, trace, EXPERIMENT_DRAFT))), trace)
  {
  }

  /** A paused feature flag is inactive, again before its overrides are looked at. */
  lemma FeatureFlagPausedIsInactive(env: Env, request: Request, inFlight: seq<Request>, trace: seq<Evaluation>)
    requires request.ExperimentRequest? && request.experiment.experimentType == ExperimentTypes.FEATURE_FLAG
    requires request.experiment.status == ExperimentStatuses.PAUSED
    ensures EvaluateExperiment(env, request, inFlight, trace) ==
      (Ok(CreateDefaultEvaluation(request, trace, FEATURE_FLAG_INACTIVE)), trace)
  {
    PipelineHeads();
    DraftThenPaused(env, Chain(FEATURE_FLAG_STEPS[2..]), request, inFlight, trace);
  }

  /** A flow that starts with the draft and paused checks makes a paused feature flag inactive, whatever follows. */
  lemma DraftThenPaused(env: Env, rest: Flow, request: Request, inFlight: seq<Request>, trace: seq<Evaluation>)
    requires request.ExperimentRequest? && request.experiment.experimentType == ExperimentTypes.FEATURE_FLAG
    requires request.experiment.status == ExperimentStatuses.PAUSED
    ensures RunFlow(env, Decision(DraftEvaluator, Decision(PausedEvaluator, rest)), request, inFlight, trace) ==
      (Ok(Some(CreateDefaultEvaluation(request, trace, FEATURE_FLAG_INACTIVE))), trace)
  {
    var paused := Decision(PausedEvaluator, rest);
    assert DraftStep(env, paused, request, inFlight, trace) == RunFlow(env, paused, request, inFlight, trace);
  }

  /**
   * Both pipelines always decide: running one never falls through to the
   * evaluator's TRAFFIC_NOT_ALLOCATED fallback.
   */
  lemma PipelineAlwaysDecides(env: Env, request: Request, inFlight: seq<Request>, trace: seq<Evaluation>)
    requires request.ExperimentRequest?
    ensures RunFlow(env, FlowFor(request.experiment.experimentType), request, inFlight, trace).0 != Ok(None)
    ensures var run := RunFlow(env, FlowFor(request.experiment.experimentType), request, inFlight, trace);
      run.0.Ok? ==> EvaluateExperiment(env, request, inFlight, trace) == (Ok(run.0.value.value), run.1)
  {
    PipelinesEndTerminal(request.experiment.experimentType);
  }
}
