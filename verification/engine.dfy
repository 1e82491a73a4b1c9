/**
 * The evaluation engine as the SDK runs it: evaluators that share one
 * mutable `EvaluatorContext`, pushing and popping requests and appending
 * nested evaluations. Every method leaves the request stack as it found
 * it and is proved to return, and to leave in the context, exactly what
 * the matching function of `EvaluationSpec` computes.
 */
module EvaluationEngine {
  import opened Wrappers
  import opened Seqs
  import opened Model
  import opened Evaluators
  import opened DecisionReasons
  import opened ConditionMatchers
  import opened ExperimentResolvers
  import opened EvaluationFlows
  import opened RubyValues
  import opened OrderedMaps
  import PropertiesBuilders
  import Spec = EvaluationSpec
  import Workspaces
  import Bucketing
  import Text
  import RubyIntegers
  import ValueTypes
  import TargetKeyTypes
  import ExperimentTypes
  import ExperimentStatuses

  /**
   * `get_evaluation_or_nil`: scan the context's evaluations for the first
   * experiment evaluation of the experiment.
   */
  method GetEvaluationOrNil(ctx: EvaluatorContext, experimentId: int) returns (r: Option<Evaluation>)
    ensures r == EvaluationOrNil(ctx.evaluations, experimentId)
  {
    var i := 0;
    while i < |ctx.evaluations|
      invariant 0 <= i <= |ctx.evaluations|
      invariant forall k :: 0 <= k < i ==> !IsEvaluationOf(ctx.evaluations[k], experimentId)
    {
      if IsEvaluationOf(ctx.evaluations[i], experimentId) {
        var found := EvaluationOrNil(ctx.evaluations, experimentId);
        var k :| 0 <= k < |ctx.evaluations| && found.value == ctx.evaluations[k] &&
          IsEvaluationOf(ctx.evaluations[k], experimentId) &&
          forall j :: 0 <= j < k ==> !IsEvaluationOf(ctx.evaluations[j], experimentId);
        assert k == i;
        return Some(ctx.evaluations[i]);
      }
      i := i + 1;
    }
    return None;
  }

  /**
   * `DelegatingEvaluator`, wired with the evaluators it delegates to and,
   * standing for the matchers and resolvers that hold a reference back to
   * it, the bucketer's hash.
   */
  class DelegatingEvaluator {
    var evaluators: seq<EvaluatorKind>
    const hasher: Bucketing.Hasher

    /** A delegating evaluator with no evaluators yet. */
    constructor(hasher: Bucketing.Hasher)
      ensures evaluators == [] && this.hasher == hasher
    {
      evaluators := [];
      this.hasher := hasher;
    }

    /** `add`: append an evaluator; earlier ones keep priority. */
    method Add(kind: EvaluatorKind)
      modifies this
      ensures evaluators == old(evaluators) + [kind]
    {
      evaluators := evaluators + [kind];
    }

    /** The wiring the specification functions take. */
    function Wiring(): Spec.Env
      reads this
    {
      Spec.Env(evaluators, hasher)
    }

    /** `evaluate`: find the first evaluator that supports the request and let it evaluate. */
    method Evaluate(request: Request, ctx: EvaluatorContext) returns (r: Result<Evaluation>)
      modifies ctx
      ensures ctx.requests == old(ctx.requests)
      ensures (r, ctx.evaluations) == Spec.Evaluate(Wiring(), request, old(ctx.requests), old(ctx.evaluations))
      decreases Spec.OuterMeasure(request, ctx.requests), 1, 0
    {
      var evaluator := Find(evaluators, (k: EvaluatorKind) => Supports(k, request));
      if evaluator.None? {
        return Failure("unsupported EvaluatorRequest [" + Spec.ClassName(request) + "]");
      }
      r := EvaluateContextual(evaluator.value, request, ctx);
    }

    /**
     * `ContextualEvaluator#evaluate`: refuse a request already in flight;
     * otherwise push it, evaluate, and pop it again whatever the outcome.
     */
    method EvaluateContextual(kind: EvaluatorKind, request: Request, ctx: EvaluatorContext) returns (r: Result<Evaluation>)
      requires Supports(kind, request)
      modifies ctx
      ensures ctx.requests == old(ctx.requests)
      ensures (r, ctx.evaluations) == Spec.EvaluateContextual(Wiring(), kind, request, old(ctx.requests), old(ctx.evaluations))
      decreases Spec.OuterMeasure(request, ctx.requests), 0, 0
    {
      if ctx.RequestInclude(request) {
        return Failure("circular evaluation has occurred");
      }
      ghost var requests := ctx.requests;
      PushShrinks(Universe(request.workspace), ctx.requests, request);
      ctx.AddRequest(request);
      r := EvaluateInternal(kind, request, ctx);
      assert ctx.requests == requests + [request];
      ctx.RemoveRequest(request);
      PopAfterPush(requests, request);
    }

    /** `evaluate_internal` of the evaluator that supports the request. */
    method EvaluateInternal(kind: EvaluatorKind, request: Request, ctx: EvaluatorContext) returns (r: Result<Evaluation>)
      requires Supports(kind, request)
      modifies ctx
      ensures ctx.requests == old(ctx.requests)
      ensures (r, ctx.evaluations) == Spec.EvaluateInternal(Wiring(), kind, request, old(ctx.requests), old(ctx.evaluations))
      decreases Spec.Measure(request, ctx.requests), 10, 0
    {
      match kind
      case ExperimentEvaluatorKind =>
        r := EvaluateExperiment(request, ctx);
      case RemoteConfigEvaluatorKind =>
        r := EvaluateRemoteConfig(request, ctx);
    }

    /** `ExperimentEvaluator#evaluate_internal` */
    method EvaluateExperiment(request: Request, ctx: EvaluatorContext) returns (r: Result<Evaluation>)
      requires request.ExperimentRequest?
      modifies ctx
      ensures ctx.requests == old(ctx.requests)
      ensures (r, ctx.evaluations) == Spec.EvaluateExperiment(Wiring(), request, old(ctx.requests), old(ctx.evaluations))
      decreases Spec.Measure(request, ctx.requests), 9, 0
    {
      var outcome := RunFlow(FlowFor(request.experiment.experimentType), request, ctx);
      if outcome.Failure? {
        return Failure(outcome.error);
      }
      if outcome.value.Some? {
        return Ok(outcome.value.value);
      }
      return Ok(CreateDefaultEvaluation(request, ctx.evaluations, TRAFFIC_NOT_ALLOCATED));
    }

    /** `EvaluationFlow#evaluate` */
    method RunFlow(flow: Flow, request: Request, ctx: EvaluatorContext) returns (r: Result<Option<Evaluation>>)
      requires request.ExperimentRequest?
      modifies ctx
      ensures ctx.requests == old(ctx.requests)
      ensures (r, ctx.evaluations) == Spec.RunFlow(Wiring(), flow, request, old(ctx.requests), old(ctx.evaluations))
      decreases Spec.Measure(request, ctx.requests), 8, 2 * Size(flow)
    {
      match flow
      case End =>
        r := Ok(None);
      case Decision(step, next) =>
        match step
        case OverrideEvaluator => r := OverrideStep(next, request, ctx);
        case IdentifierEvaluator => r := IdentifierStep(next, request, ctx);
        case ContainerEvaluator => r := ContainerStep(next, request, ctx);
        case TargetEvaluator => r := TargetStep(next, request, ctx);
        case DraftEvaluator => r := DraftStep(next, request, ctx);
        case PausedEvaluator => r := PausedStep(next, request, ctx);
        case CompletedEvaluator => r := CompletedStep(next, request, ctx);
        case TrafficAllocateEvaluator => r := Spec.TrafficAllocateStep(hasher, request, ctx.evaluations);
        case TargetRuleEvaluator => r := TargetRuleStep(next, request, ctx);
        case DefaultRuleEvaluator => r := Spec.DefaultRuleStep(hasher, request, ctx.evaluations);
    }

    /** `OverrideExperimentFlowEvaluator#evaluate` */
    method OverrideStep(next: Flow, request: Request, ctx: EvaluatorContext) returns (r: Result<Option<Evaluation>>)
      requires request.ExperimentRequest?
      modifies ctx
      ensures ctx.requests == old(ctx.requests)
      ensures (r, ctx.evaluations) == Spec.OverrideStep(Wiring(), next, request, old(ctx.requests), old(ctx.evaluations))
      decreases Spec.Measure(request, ctx.requests), 8, 2 * Size(next) + 1
    {
      var overridden := ResolveOverride(request, ctx);
      if overridden.Failure? {
        return Failure(overridden.error);
      }
      if overridden.value.None? {
        r := RunFlow(next, request, ctx);
        return;
      }
      match request.experiment.experimentType
      case AB_TEST =>
        r := Ok(Some(CreateEvaluation(request, ctx.evaluations, overridden.value.value, OVERRIDDEN)));
      case FEATURE_FLAG =>
        r := Ok(Some(CreateEvaluation(request, ctx.evaluations, overridden.value.value, INDIVIDUAL_TARGET_MATCH)));
    }

    /** `IdentifierExperimentFlowEvaluator#evaluate` */
    method IdentifierStep(next: Flow, request: Request, ctx: EvaluatorContext) returns (r: Result<Option<Evaluation>>)
      requires request.ExperimentRequest?
      modifies ctx
      ensures ctx.requests == old(ctx.requests)
      ensures (r, ctx.evaluations) == Spec.IdentifierStep(Wiring(), next, request, old(ctx.requests), old(ctx.evaluations))
      decreases Spec.Measure(request, ctx.requests), 8, 2 * Size(next) + 1
    {
      if IdentifierOrNil(request).None? {
        return Ok(Some(CreateDefaultEvaluation(request, ctx.evaluations, IDENTIFIER_NOT_FOUND)));
      }
      r := RunFlow(next, request, ctx);
    }

    /** `ContainerExperimentFlowEvaluator#evaluate` */
    method ContainerStep(next: Flow, request: Request, ctx: EvaluatorContext) returns (r: Result<Option<Evaluation>>)
      requires request.ExperimentRequest?
      modifies ctx
      ensures ctx.requests == old(ctx.requests)
      ensures (r, ctx.evaluations) == Spec.ContainerStep(Wiring(), next, request, old(ctx.requests), old(ctx.evaluations))
      decreases Spec.Measure(request, ctx.requests), 8, 2 * Size(next) + 1
    {
      var containerId := request.experiment.containerId;
      if containerId.None? {
        r := RunFlow(next, request, ctx);
        return;
      }
      var container := Workspaces.GetContainerOrNil(request.workspace, containerId.value);
      if container.None? {
        return Failure("container [" + Text.IntToString(containerId.value) + "]");
      }
      var inGroup := ContainerResolve(hasher, request, container.value);
      if inGroup.Failure? {
        return Failure(inGroup.error);
      }
      if inGroup.value {
        r := RunFlow(next, request, ctx);
        return;
      }
      return Ok(Some(CreateDefaultEvaluation(request, ctx.evaluations, NOT_IN_MUTUAL_EXCLUSION_EXPERIMENT)));
    }

    /** `TargetExperimentFlowEvaluator#evaluate` */
    method TargetStep(next: Flow, request: Request, ctx: EvaluatorContext) returns (r: Result<Option<Evaluation>>)
      requires request.ExperimentRequest?
      modifies ctx
      ensures ctx.requests == old(ctx.requests)
      ensures (r, ctx.evaluations) == Spec.TargetStep(Wiring(), next, request, old(ctx.requests), old(ctx.evaluations))
      decreases Spec.Measure(request, ctx.requests), 8, 2 * Size(next) + 1
    {
      if request.experiment.experimentType != ExperimentTypes.AB_TEST {
        return Failure("experiment type must be AB_TEST [" + Text.IntToString(request.experiment.id) + "]");
      }
      var inTarget := InExperimentTarget(request, ctx);
      if inTarget.Failure? {
        return Failure(inTarget.error);
      }
      if inTarget.value {
        r := RunFlow(next, request, ctx);
        return;
      }
      return Ok(Some(CreateDefaultEvaluation(request, ctx.evaluations, NOT_IN_EXPERIMENT_TARGET)));
    }

    /** `DraftExperimentFlowEvaluator#evaluate` */
    method DraftStep(next: Flow, request: Request, ctx: EvaluatorContext) returns (r: Result<Option<Evaluation>>)
      requires request.ExperimentRequest?
      modifies ctx
      ensures ctx.requests == old(ctx.requests)
      ensures (r, ctx.evaluations) == Spec.DraftStep(Wiring(), next, request, old(ctx.requests), old(ctx.evaluations))
      decreases Spec.Measure(request, ctx.requests), 8, 2 * Size(next) + 1
    {
      if request.experiment.status != ExperimentStatuses.DRAFT {
        r := RunFlow(next, request, ctx);
        return;
      }
      return Ok(Some(CreateDefaultEvaluation(request, ctx.evaluations, EXPERIMENT_DRAFT)));
    }

    /** `PausedExperimentFlowEvaluator#evaluate` */
    method PausedStep(next: Flow, request: Request, ctx: EvaluatorContext) returns (r: Result<Option<Evaluation>>)
      requires request.ExperimentRequest?
      modifies ctx
      ensures ctx.requests == old(ctx.requests)
      ensures (r, ctx.evaluations) == Spec.PausedStep(Wiring(), next, request, old(ctx.requests), old(ctx.evaluations))
      decreases Spec.Measure(request, ctx.requests), 8, 2 * Size(next) + 1
    {
      if request.experiment.status != ExperimentStatuses.PAUSED {
        r := RunFlow(next, request, ctx);
        return;
      }
      match request.experiment.experimentType
      case AB_TEST =>
        r := Ok(Some(CreateDefaultEvaluation(request, ctx.evaluations, EXPERIMENT_PAUSED)));
      case FEATURE_FLAG =>
        r := Ok(Some(CreateDefaultEvaluation(request, ctx.evaluations, FEATURE_FLAG_INACTIVE)));
    }

    /** `CompletedExperimentFlowEvaluator#evaluate` */
    method CompletedStep(next: Flow, request: Request, ctx: EvaluatorContext) returns (r: Result<Option<Evaluation>>)
      requires request.ExperimentRequest?
      modifies ctx
      ensures ctx.requests == old(ctx.requests)
      ensures (r, ctx.evaluations) == Spec.CompletedStep(Wiring(), next, request, old(ctx.requests), old(ctx.evaluations))
      decreases Spec.Measure(request, ctx.requests), 8, 2 * Size(next) + 1
    {
      if request.experiment.status != ExperimentStatuses.COMPLETED {
        r := RunFlow(next, request, ctx);
        return;
      }
      var winner := WinnerVariationOrNil(request.experiment);
      if winner.None? {
        return Failure("winner variation [" + Text.IntToString(request.experiment.id) + "]");
      }
      return Ok(Some(CreateEvaluation(request, ctx.evaluations, winner.value, EXPERIMENT_COMPLETED)));
    }

    /** `TargetRuleExperimentFlowEvaluator#evaluate` */
    method TargetRuleStep(next: Flow, request: Request, ctx: EvaluatorContext) returns (r: Result<Option<Evaluation>>)
      requires request.ExperimentRequest?
      modifies ctx
      ensures ctx.requests == old(ctx.requests)
      ensures (r, ctx.evaluations) == Spec.TargetRuleStep(Wiring(), next, request, old(ctx.requests), old(ctx.evaluations))
      decreases Spec.Measure(request, ctx.requests), 8, 2 * Size(next) + 1
    {
      if request.experiment.status != ExperimentStatuses.RUNNING {
        return Failure("experiment status must be RUNNING [" + Text.IntToString(request.experiment.id) + "]");
      }
      if request.experiment.experimentType != ExperimentTypes.FEATURE_FLAG {
        return Failure("experiment type must be FEATURE_FLAG [" + Text.IntToString(request.experiment.id) + "]");
      }
      if IdentifierOrNil(request).None? {
        r := RunFlow(next, request, ctx);
        return;
      }
      var rule := FirstMatchingRule(request, request.experiment.targetRules, ctx);
      if rule.Failure? {
        return Failure(rule.error);
      }
      if rule.value.None? {
        r := RunFlow(next, request, ctx);
        return;
      }
      var variation := ActionResolve(hasher, request, rule.value.value.action);
      if variation.Failure? {
        return Failure(variation.error);
      }
      if variation.value.None? {
        return Failure("feature flag must decide the variation [" + Text.IntToString(request.experiment.id) + "]");
      }
      return Ok(Some(CreateEvaluation(request, ctx.evaluations, variation.value.value, TARGET_RULE_MATCH)));
    }

    /** `ExperimentOverrideResolver#resolve_or_nil` */
    method ResolveOverride(request: Request, ctx: EvaluatorContext) returns (r: Result<Option<Variation>>)
      requires request.ExperimentRequest?
      modifies ctx
      ensures ctx.requests == old(ctx.requests)
      ensures (r, ctx.evaluations) == Spec.ResolveOverride(Wiring(), request, old(ctx.requests), old(ctx.evaluations))
      decreases Spec.Measure(request, ctx.requests), 7, 0
    {
      var user := UserOverrideResolve(request);
      if user.Some? {
        return Ok(user);
      }
      var rule := FirstMatchingRule(request, request.experiment.segmentOverrides, ctx);
      if rule.Failure? {
        return Failure(rule.error);
      }
      if rule.value.None? {
        return Ok(None);
      }
      r := ActionResolve(hasher, request, rule.value.value.action);
    }

    /**
     * `segment_overrides.find` and `target_rules.find` with the target
     * matcher: try the rules in order until one's target matches.
     */
    method FirstMatchingRule(request: Request, rules: seq<TargetRule>, ctx: EvaluatorContext) returns (r: Result<Option<TargetRule>>)
      modifies ctx
      ensures ctx.requests == old(ctx.requests)
      ensures (r, ctx.evaluations) == Spec.FirstMatchingRule(Wiring(), request, rules, old(ctx.requests), old(ctx.evaluations))
      decreases Spec.Measure(request, ctx.requests), 6, |rules|
    {
      var i := 0;
      while i < |rules|
        invariant 0 <= i <= |rules|
        invariant ctx.requests == old(ctx.requests)
        invariant Spec.FirstMatchingRule(Wiring(), request, rules, old(ctx.requests), old(ctx.evaluations)) ==
                  Spec.FirstMatchingRule(Wiring(), request, rules[i..], ctx.requests, ctx.evaluations)
      {
        var matches := TargetMatches(request, rules[i].target, ctx);
        if matches.Failure? {
          return Failure(matches.error);
        }
        if matches.value {
          return Ok(Some(rules[i]));
        }
        assert rules[i..][1..] == rules[i + 1..];
        i := i + 1;
      }
      return Ok(None);
    }

    /** `ExperimentTargetDeterminer#user_in_experiment_target?`: `target_audiences.any?` with the target matcher. */
    method InExperimentTarget(request: Request, ctx: EvaluatorContext) returns (r: Result<bool>)
      requires request.ExperimentRequest?
      modifies ctx
      ensures ctx.requests == old(ctx.requests)
      ensures (r, ctx.evaluations) == Spec.InExperimentTarget(Wiring(), request, old(ctx.requests), old(ctx.evaluations))
      decreases Spec.Measure(request, ctx.requests), 7, 0
    {
      var audiences := request.experiment.targetAudiences;
      if |audiences| == 0 {
        return Ok(true);
      }
      var i := 0;
      while i < |audiences|
        invariant 0 <= i <= |audiences|
        invariant ctx.requests == old(ctx.requests)
        invariant Spec.InExperimentTarget(Wiring(), request, old(ctx.requests), old(ctx.evaluations)) ==
                  Spec.AnyTargetMatches(Wiring(), request, audiences[i..], ctx.requests, ctx.evaluations)
      {
        var matches := TargetMatches(request, audiences[i], ctx);
        if matches.Failure? {
          return Failure(matches.error);
        }
        if matches.value {
          return Ok(true);
        }
        assert audiences[i..][1..] == audiences[i + 1..];
        i := i + 1;
      }
      return Ok(false);
    }

    /** `TargetMatcher#matches`: `conditions.all?` with `condition_matches`. */
    method TargetMatches(request: Request, target: Target, ctx: EvaluatorContext) returns (r: Result<bool>)
      modifies ctx
      ensures ctx.requests == old(ctx.requests)
      ensures (r, ctx.evaluations) == Spec.TargetMatches(Wiring(), request, target, old(ctx.requests), old(ctx.evaluations))
      decreases Spec.Measure(request, ctx.requests), 5, |target.conditions| + 1
    {
      var conditions := target.conditions;
      var i := 0;
      while i < |conditions|
        invariant 0 <= i <= |conditions|
        invariant ctx.requests == old(ctx.requests)
        invariant Spec.TargetMatches(Wiring(), request, target, old(ctx.requests), old(ctx.evaluations)) ==
                  Spec.AllConditionsMatch(Wiring(), request, conditions[i..], ctx.requests, ctx.evaluations)
      {
        var matches := ConditionMatches(request, conditions[i], ctx);
        if matches.Failure? {
          return Failure(matches.error);
        }
        if !matches.value {
          return Ok(false);
        }
        assert conditions[i..][1..] == conditions[i + 1..];
        i := i + 1;
      }
      return Ok(true);
    }

    /** `TargetMatcher#condition_matches`: the matcher the factory picks for the key type. */
    method ConditionMatches(request: Request, condition: TargetCondition, ctx: EvaluatorContext) returns (r: Result<bool>)
      modifies ctx
      ensures ctx.requests == old(ctx.requests)
      ensures (r, ctx.evaluations) == Spec.ConditionMatches(Wiring(), request, condition, old(ctx.requests), old(ctx.evaluations))
      decreases Spec.Measure(request, ctx.requests), 4, 0
    {
      match MatcherFor(condition.key.keyType)
      case UserConditionMatcher =>
        r := UserConditionMatches(request.user, condition);
      case SegmentConditionMatcher =>
        r := SegmentConditionMatches(request.workspace, request.user, condition);
      case ExperimentConditionMatcher =>
        r := ExperimentConditionMatches(request, condition, ctx);
    }

    /** `ExperimentConditionMatcher#matches` */
    method ExperimentConditionMatches(request: Request, condition: TargetCondition, ctx: EvaluatorContext) returns (r: Result<bool>)
      modifies ctx
      ensures ctx.requests == old(ctx.requests)
      ensures (r, ctx.evaluations) == Spec.ExperimentConditionMatches(Wiring(), request, condition, old(ctx.requests), old(ctx.evaluations))
      decreases Spec.Measure(request, ctx.requests), 3, 1
    {
      match condition.key.keyType
      case AB_TEST =>
        r := ExperimentEvaluatorMatches(AbTestMatcher, request, condition, ctx);
      case FEATURE_FLAG =>
        r := ExperimentEvaluatorMatches(FeatureFlagMatcher, request, condition, ctx);
      case _ =>
        r := Failure("unsupported TargetKeyType [" + TargetKeyTypes.Name(condition.key.keyType) + "]");
    }

    /**
     * `ExperimentEvaluatorMatcher#matches`: reuse the context's evaluation
     * of the referenced experiment, or evaluate it now and record the
     * resolved evaluation in the context.
     */
    method ExperimentEvaluatorMatches(kind: ExperimentMatcherKind, request: Request, condition: TargetCondition,
                                      ctx: EvaluatorContext) returns (r: Result<bool>)
      modifies ctx
      ensures ctx.requests == old(ctx.requests)
      ensures (r, ctx.evaluations) ==
        Spec.ExperimentEvaluatorMatches(Wiring(), kind, request, condition, old(ctx.requests), old(ctx.evaluations))
      decreases Spec.Measure(request, ctx.requests), 3, 0
    {
      var key := RubyIntegers.IntegerOrNil(condition.key.name);
      if key.None? {
        return Failure("invalid key [" + TargetKeyTypes.Name(condition.key.keyType) + ", " + condition.key.name + "]");
      }
      var experiment := ConditionMatchers.ExperimentOrNil(kind, request.workspace, key.value);
      if experiment.None? {
        return Ok(false);
      }
      var evaluation := GetEvaluationOrNil(ctx, experiment.value.id);
      if evaluation.None? {
        var evaluated := EvaluateNestedExperiment(kind, request, key.value, experiment.value, ctx);
        if evaluated.Failure? {
          return Failure(evaluated.error);
        }
        evaluation := Some(evaluated.value);
      }
      r := EvaluationMatches(kind, evaluation.value, condition.targetMatch);
    }

    /** The nested evaluation inside `matches`: evaluate, check the kind, resolve, add to the context. */
    method EvaluateNestedExperiment(kind: ExperimentMatcherKind, request: Request, key: int, experiment: Experiment,
                                    ctx: EvaluatorContext) returns (r: Result<Evaluation>)
      requires ConditionMatchers.ExperimentOrNil(kind, request.workspace, key) == Some(experiment)
      requires EvaluationOrNil(ctx.evaluations, experiment.id).None?
      modifies ctx
      ensures ctx.requests == old(ctx.requests)
      ensures (r, ctx.evaluations) ==
        Spec.EvaluateNestedExperiment(Wiring(), kind, request, key, experiment, old(ctx.requests), old(ctx.evaluations))
      decreases Spec.Measure(request, ctx.requests), 2, 0
    {
      var nested := CreateExperimentRequestBy(request, experiment);
      NestedKeyInUniverse(request, key, experiment);
      UniverseAbsorbs(Universe(request.workspace), nested.key, KeysOf(ctx.requests));
      var evaluated := Evaluate(nested, ctx);
      if evaluated.Failure? {
        return Failure(evaluated.error);
      }
      if !evaluated.value.ExperimentEvaluation? {
        return Failure("unexpected evaluation: Hackle::RemoteConfigEvaluation (expected: ExperimentEvaluation)");
      }
      var resolved := ResolveEvaluation(kind, request, evaluated.value);
      ctx.AddEvaluation(resolved);
      r := Ok(resolved);
    }

    /** `RemoteConfigEvaluator#evaluate_internal`, filling a properties builder as it goes. */
    method EvaluateRemoteConfig(request: Request, ctx: EvaluatorContext) returns (r: Result<Evaluation>)
      requires request.RemoteConfigRequest?
      modifies ctx
      ensures ctx.requests == old(ctx.requests)
      ensures (r, ctx.evaluations) == Spec.EvaluateRemoteConfig(Wiring(), request, old(ctx.requests), old(ctx.evaluations))
      decreases Spec.Measure(request, ctx.requests), 9, 0
    {
      var builder := new PropertiesBuilders.PropertiesBuilder();
      builder.Add(Str("requestValueType"), Str(ValueTypes.Name(request.requiredType)));
      builder.Add(Str("requestDefaultValue"), request.defaultValue);
      if Get(request.user.identifiers, request.parameter.identifierType).None? {
        return Ok(CreateRemoteConfigEvaluation(request, ctx.evaluations, None, request.defaultValue,
                                               IDENTIFIER_NOT_FOUND, builder.Build()));
      }
      var rule := DetermineRemoteConfigRule(request, ctx);
      if rule.Failure? {
        return Failure(rule.error);
      }
      if rule.value.Some? {
        builder.Add(Str("targetRuleKey"), Str(rule.value.value.key));
        builder.Add(Str("targetRuleName"), Str(rule.value.value.name));
        return Ok(ValueEvaluation(request, ctx.evaluations, rule.value.value.value, TARGET_RULE_MATCH, builder.Build()));
      }
      return Ok(ValueEvaluation(request, ctx.evaluations, request.parameter.defaultValue, DEFAULT_RULE, builder.Build()));
    }

    /** `RemoteConfigTargetRuleDeterminer#determine_or_nil`: `target_rules.find` with the rule matcher. */
    method DetermineRemoteConfigRule(request: Request, ctx: EvaluatorContext) returns (r: Result<Option<RemoteConfigTargetRule>>)
      requires request.RemoteConfigRequest?
      modifies ctx
      ensures ctx.requests == old(ctx.requests)
      ensures (r, ctx.evaluations) ==
        Spec.DetermineRemoteConfigRule(Wiring(), request, request.parameter.targetRules, old(ctx.requests), old(ctx.evaluations))
      decreases Spec.Measure(request, ctx.requests), 7, 0
    {
      var rules := request.parameter.targetRules;
      var i := 0;
      while i < |rules|
        invariant 0 <= i <= |rules|
        invariant ctx.requests == old(ctx.requests)
        invariant Spec.DetermineRemoteConfigRule(Wiring(), request, rules, old(ctx.requests), old(ctx.evaluations)) ==
                  Spec.DetermineRemoteConfigRule(Wiring(), request, rules[i..], ctx.requests, ctx.evaluations)
      {
        var matches := RemoteConfigRuleMatches(request, rules[i], ctx);
        if matches.Failure? {
          return Failure(matches.error);
        }
        if matches.value {
          return Ok(Some(rules[i]));
        }
        assert rules[i..][1..] == rules[i + 1..];
        i := i + 1;
      }
      return Ok(None);
    }

    /** `RemoteConfigTargetRuleMatcher#matches` */
    method RemoteConfigRuleMatches(request: Request, rule: RemoteConfigTargetRule, ctx: EvaluatorContext) returns (r: Result<bool>)
      requires request.RemoteConfigRequest?
      modifies ctx
      ensures ctx.requests == old(ctx.requests)
      ensures (r, ctx.evaluations) == Spec.RemoteConfigRuleMatches(Wiring(), request, rule, old(ctx.requests), old(ctx.evaluations))
      decreases Spec.Measure(request, ctx.requests), 6, 0
    {
      var matches := TargetMatches(request, rule.target, ctx);
      if matches.Failure? {
        return Failure(matches.error);
      }
      if !matches.value {
        return Ok(false);
      }
      var identifier := Get(request.user.identifiers, request.parameter.identifierType);
      if identifier.None? {
        return Ok(false);
      }
      var bucket := Workspaces.GetBucketOrNil(request.workspace, rule.bucketId);
      if bucket.None? {
        return Failure("bucket [" + Text.IntToString(rule.bucketId) + "]");
      }
      var slot := Bucketing.Bucketing(hasher, bucket.value, identifier.value);
      if slot.Failure? {
        return Failure(slot.error);
      }
      return Ok(slot.value.Some?);
    }
  }
}
