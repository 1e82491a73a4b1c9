/**
 * `Hackle::Core`: the decision surface. Each call looks the entity up in
 * the workspace the fetcher currently holds, evaluates it with a fresh
 * context, turns the evaluation into user events, hands each event to the
 * event processor, and returns the decision. The clock is a parameter:
 * `now` is what `Clock#current_millis` returns during the call.
 */
module HackleCore {
  import opened Wrappers
  import opened RubyValues
  import opened Model
  import opened Workspaces
  import opened Users
  import opened Evaluators
  import opened DecisionReasons
  import opened UserEvents
  import ParameterConfigs
  import ValueTypes
  import Events
  import Spec = EvaluationSpec
  import EvaluationEngine
  import Bucketing
  import Processors = UserEventProcessors

  /** `ExperimentDecision` */
  datatype ExperimentDecision = ExperimentDecision(variation: string, reason: DecisionReason, config: ParameterConfigs.ParameterConfig)

  /** `FeatureFlagDecision` */
  datatype FeatureFlagDecision = FeatureFlagDecision(isOn: bool, reason: DecisionReason, config: ParameterConfigs.ParameterConfig)

  /** `RemoteConfigDecision` */
  datatype RemoteConfigDecision = RemoteConfigDecision(value: Value, reason: DecisionReason)

  /** `Core.create`: the experiment evaluator, then the remote-config evaluator, behind one delegating evaluator. */
  function Wiring(hasher: Bucketing.Hasher): Spec.Env
  {
    Spec.Env([ExperimentEvaluatorKind, RemoteConfigEvaluatorKind], hasher)
  }

  // ----- what each call decides and reports -----

  /**
   * `evaluator.evaluate(request, Evaluator.context)` followed by
   * `event_factory.create(request, evaluation)`. An evaluation that does
   * not raise answers the request, and the evaluations nested in it are of
   * other experiments, each at most once; an error raised by the
   * evaluation reaches the caller before any event is made.
   */
  function Evaluated(env: Spec.Env, kind: EvaluatorKind, request: Request, timestamp: int): (r: Result<(Evaluation, seq<UserEvent>)>)
    requires Supports(kind, request)
    ensures r.Ok? ==> Answers(request, r.value.0) && r.value.1 == EventsOf(request, r.value.0, timestamp)
    ensures r.Ok? ==> forall i :: 0 <= i < |r.value.0.targetEvaluations| ==>
      r.value.0.targetEvaluations[i].ExperimentEvaluation? &&
      EvaluatorKey(EXPERIMENT_KEY_TYPE, r.value.0.targetEvaluations[i].experiment.id) != request.key
    ensures r.Ok? ==> Spec.DistinctExperiments(r.value.0.targetEvaluations)
  {
    var evaluated := Spec.EvaluateContextual(env, kind, request, [], []);
    assert KeysOf([] + [request]) == {request.key};
    if evaluated.0.Failure? then Failure(evaluated.0.error)
    else Ok((evaluated.0.value, EventsOf(request, evaluated.0.value, timestamp)))
  }

  /** `Core#experiment`: the decision, and the events handed to the processor. */
  function DecideExperiment(env: Spec.Env, workspace: Option<Workspace>, experimentKey: int, user: HackleUser,
                            defaultVariation: string, timestamp: int): Result<(ExperimentDecision, seq<UserEvent>)>
  {
    if workspace.None? then Ok((ExperimentDecision(defaultVariation, SDK_NOT_READY, ParameterConfigs.Empty()), []))
    else
      var experiment := GetExperimentOrNil(workspace.value, experimentKey);
      if experiment.None? then Ok((ExperimentDecision(defaultVariation, EXPERIMENT_NOT_FOUND, ParameterConfigs.Empty()), []))
      else
        var request := CreateExperimentRequest(workspace.value, user, experiment.value, defaultVariation);
        var evaluated := Evaluated(env, ExperimentEvaluatorKind, request, timestamp);
        if evaluated.Failure? then Failure(evaluated.error)
        else
          var evaluation := evaluated.value.0;
          Ok((ExperimentDecision(evaluation.variationKey, evaluation.reason, ParameterConfigOf(evaluation)), evaluated.value.1))
  }

  /** `Core#feature_flag`: evaluated like an experiment with `'A'` as the default; on unless the variation is `'A'`. */
  function DecideFeatureFlag(env: Spec.Env, workspace: Option<Workspace>, featureKey: int, user: HackleUser,
                             timestamp: int): Result<(FeatureFlagDecision, seq<UserEvent>)>
  {
    if workspace.None? then Ok((FeatureFlagDecision(false, SDK_NOT_READY, ParameterConfigs.Empty()), []))
    else
      var featureFlag := GetFeatureFlagOrNil(workspace.value, featureKey);
      if featureFlag.None? then Ok((FeatureFlagDecision(false, FEATURE_FLAG_NOT_FOUND, ParameterConfigs.Empty()), []))
      else
        var request := CreateExperimentRequest(workspace.value, user, featureFlag.value, "A");
        var evaluated := Evaluated(env, ExperimentEvaluatorKind, request, timestamp);
        if evaluated.Failure? then Failure(evaluated.error)
        else
          var evaluation := evaluated.value.0;
          Ok((FeatureFlagDecision(evaluation.variationKey != "A", evaluation.reason, ParameterConfigOf(evaluation)), evaluated.value.1))
  }

  /**
   * `Core#remote_config`. The parameter key is looked up as given: a key
   * that is not a String names no parameter.
   */
  function DecideRemoteConfig(env: Spec.Env, workspace: Option<Workspace>, parameterKey: Value, user: HackleUser,
                              requiredType: ValueTypes.ValueType, defaultValue: Value,
                              timestamp: int): Result<(RemoteConfigDecision, seq<UserEvent>)>
  {
    if workspace.None? then Ok((RemoteConfigDecision(defaultValue, SDK_NOT_READY), []))
    else
      var parameter := if parameterKey.Str? then GetRemoteConfigParameterOrNil(workspace.value, parameterKey.s) else None;
      if parameter.None? then Ok((RemoteConfigDecision(defaultValue, REMOTE_CONFIG_PARAMETER_NOT_FOUND), []))
      else
        var request := CreateRemoteConfigRequest(workspace.value, user, parameter.value, requiredType, defaultValue);
        var evaluated := Evaluated(env, RemoteConfigEvaluatorKind, request, timestamp);
        if evaluated.Failure? then Failure(evaluated.error)
        else Ok((RemoteConfigDecision(evaluated.value.0.value, evaluated.value.0.reason), evaluated.value.1))
  }

  /**
   * `Core#event_type`: the workspace's event type for the event's key; the
   * type with id 0 and the event's own key when there is no workspace yet
   * or the key names no event type (a key that is not a String never
   * does).
   */
  function EventTypeOf(workspace: Option<Workspace>, key: Value): (r: (int, Value))
  {
    if workspace.Some? && key.Str? && GetEventTypeOrNil(workspace.value, key.s).Some? then
      var eventType := GetEventTypeOrNil(workspace.value, key.s).value;
      (eventType.id, Str(eventType.key))
    else (0, key)
  }

  /**
   * `UserEvent.track(event_type, event, user, now)` with the type
   * `event_type` finds: the event type falls back to id 0 and the event's
   * own key whenever the workspace has no type for that key.
   */
  function TrackEventOf(workspace: Option<Workspace>, event: Events.Event, user: HackleUser, timestamp: int): (r: UserEvent)
    ensures r.TrackEvent? && r.timestamp == timestamp && r.user == user && r.event == event
    ensures workspace.None? || !event.key.Str? || GetEventTypeOrNil(workspace.value, event.key.s).None? ==>
      r.eventTypeId == 0 && r.eventTypeKey == event.key
    ensures workspace.Some? && event.key.Str? && GetEventTypeOrNil(workspace.value, event.key.s).Some? ==>
      r.eventTypeId == GetEventTypeOrNil(workspace.value, event.key.s).value.id &&
      r.eventTypeKey == Str(GetEventTypeOrNil(workspace.value, event.key.s).value.key)
  {
    var eventType := EventTypeOf(workspace, event.key);
    TrackEvent(timestamp, user, eventType.0, eventType.1, event)
  }

  // ----- what the calls promise -----

  /**
   * Without a workspace, or for an experiment the workspace does not
   * hold, the default variation with SDK_NOT_READY or
   * EXPERIMENT_NOT_FOUND and an empty config, and no event. Otherwise the
   * decision is the one the first event, the exposure of this experiment,
   * reports; every event carries the call's timestamp and user; and the
   * other events are exposures of the other experiments consulted, one
   * each.
   */
  lemma ExperimentDecisionReported(env: Spec.Env, workspace: Option<Workspace>, experimentKey: int, user: HackleUser,
                                   defaultVariation: string, timestamp: int)
    ensures var r := DecideExperiment(env, workspace, experimentKey, user, defaultVariation, timestamp);
      && (workspace.None? ==>
            r == Ok((ExperimentDecision(defaultVariation, SDK_NOT_READY, ParameterConfigs.Empty()), [])))
      && (workspace.Some? && GetExperimentOrNil(workspace.value, experimentKey).None? ==>
            r == Ok((ExperimentDecision(defaultVariation, EXPERIMENT_NOT_FOUND, ParameterConfigs.Empty()), [])))
      && (r.Failure? ==> workspace.Some? && GetExperimentOrNil(workspace.value, experimentKey).Some?)
      && (r.Ok? && workspace.Some? && GetExperimentOrNil(workspace.value, experimentKey).Some? ==>
            var experiment := GetExperimentOrNil(workspace.value, experimentKey).value;
            var (decision, events) := r.value;
            && |events| > 0
            && events[0].ExposureEvent? && events[0].experiment == experiment
            && events[0].variationKey == decision.variation && events[0].decisionReason == decision.reason
            && (forall i :: 0 <= i < |events| ==> events[i].timestamp == timestamp && events[i].user == user)
            && (forall i :: 1 <= i < |events| ==> events[i].ExposureEvent? && events[i].experiment.id != experiment.id)
            && (forall i, j :: 1 <= i < j < |events| ==> events[i].experiment.id != events[j].experiment.id))
  {
    var r := DecideExperiment(env, workspace, experimentKey, user, defaultVariation, timestamp);
    if r.Ok? && workspace.Some? && GetExperimentOrNil(workspace.value, experimentKey).Some? {
      var experiment := GetExperimentOrNil(workspace.value, experimentKey).value;
      var request := CreateExperimentRequest(workspace.value, user, experiment, defaultVariation);
      ReportedByEvents(env, request, timestamp);
    }
  }

  /**
   * The same for feature flags: `false` with SDK_NOT_READY or
   * FEATURE_FLAG_NOT_FOUND and no event when there is nothing to evaluate;
   * otherwise the flag is on exactly when the exposure reports a variation
   * other than `'A'`, with the exposure's reason.
   */
  lemma FeatureFlagDecisionReported(env: Spec.Env, workspace: Option<Workspace>, featureKey: int, user: HackleUser,
                                    timestamp: int)
    ensures var r := DecideFeatureFlag(env, workspace, featureKey, user, timestamp);
      && (workspace.None? ==>
            r == Ok((FeatureFlagDecision(false, SDK_NOT_READY, ParameterConfigs.Empty()), [])))
      && (workspace.Some? && GetFeatureFlagOrNil(workspace.value, featureKey).None? ==>
            r == Ok((FeatureFlagDecision(false, FEATURE_FLAG_NOT_FOUND, ParameterConfigs.Empty()), [])))
      && (r.Failure? ==> workspace.Some? && GetFeatureFlagOrNil(workspace.value, featureKey).Some?)
      && (r.Ok? && workspace.Some? && GetFeatureFlagOrNil(workspace.value, featureKey).Some? ==>
            var featureFlag := GetFeatureFlagOrNil(workspace.value, featureKey).value;
            var (decision, events) := r.value;
            && |events| > 0
            && events[0].ExposureEvent? && events[0].experiment == featureFlag
            && (decision.isOn <==> events[0].variationKey != "A")
            && events[0].decisionReason == decision.reason
            && (forall i :: 0 <= i < |events| ==> events[i].timestamp == timestamp && events[i].user == user)
            && (forall i :: 1 <= i < |events| ==> events[i].ExposureEvent? && events[i].experiment.id != featureFlag.id))
  {
    var r := DecideFeatureFlag(env, workspace, featureKey, user, timestamp);
    if r.Ok? && workspace.Some? && GetFeatureFlagOrNil(workspace.value, featureKey).Some? {
      var featureFlag := GetFeatureFlagOrNil(workspace.value, featureKey).value;
      var request := CreateExperimentRequest(workspace.value, user, featureFlag, "A");
      ReportedByEvents(env, request, timestamp);
    }
  }

  /**
   * Remote config: the caller's default with SDK_NOT_READY or
   * REMOTE_CONFIG_PARAMETER_NOT_FOUND and no event when there is nothing
   * to evaluate. Otherwise the first event reports the parameter with the
   * decision's reason; the value is either of the type the caller asked
   * for or the caller's default; and the other events are exposures of
   * the experiments the targeting consulted.
   */
  lemma RemoteConfigDecisionReported(env: Spec.Env, workspace: Option<Workspace>, parameterKey: Value, user: HackleUser,
                                     requiredType: ValueTypes.ValueType, defaultValue: Value, timestamp: int)
    ensures var r := DecideRemoteConfig(env, workspace, parameterKey, user, requiredType, defaultValue, timestamp);
      && (workspace.None? ==> r == Ok((RemoteConfigDecision(defaultValue, SDK_NOT_READY), [])))
      && (workspace.Some? && (!parameterKey.Str? || GetRemoteConfigParameterOrNil(workspace.value, parameterKey.s).None?) ==>
            r == Ok((RemoteConfigDecision(defaultValue, REMOTE_CONFIG_PARAMETER_NOT_FOUND), [])))
      && (r.Ok? && r.value.0.reason in {IDENTIFIER_NOT_FOUND, TYPE_MISMATCH} ==> r.value.0.value == defaultValue)
      && (r.Ok? && r.value.0.reason in {TARGET_RULE_MATCH, DEFAULT_RULE} ==> ValidValue(requiredType, r.value.0.value))
      && (r.Ok? && workspace.Some? && parameterKey.Str? && GetRemoteConfigParameterOrNil(workspace.value, parameterKey.s).Some? ==>
            var parameter := GetRemoteConfigParameterOrNil(workspace.value, parameterKey.s).value;
            var (decision, events) := r.value;
            && |events| > 0
            && decision.reason in {IDENTIFIER_NOT_FOUND, TARGET_RULE_MATCH, DEFAULT_RULE, TYPE_MISMATCH}
            && events[0].RemoteConfigEvent? && events[0].parameter == parameter
            && events[0].decisionReason == decision.reason
            && (forall i :: 0 <= i < |events| ==> events[i].timestamp == timestamp && events[i].user == user)
            && (forall i :: 1 <= i < |events| ==> events[i].ExposureEvent?))
  {
    var r := DecideRemoteConfig(env, workspace, parameterKey, user, requiredType, defaultValue, timestamp);
    if workspace.Some? && parameterKey.Str? && GetRemoteConfigParameterOrNil(workspace.value, parameterKey.s).Some? {
      var parameter := GetRemoteConfigParameterOrNil(workspace.value, parameterKey.s).value;
      var request := CreateRemoteConfigRequest(workspace.value, user, parameter, requiredType, defaultValue);
      RemoteConfigValueTyped(env, request);
      if r.Ok? {
        ReportedByEvents(env, request, timestamp);
      }
    }
  }

  /**
   * A remote-config evaluation gives a value of the requested type when
   * a rule decided it, and the caller's default when the identifier was
   * missing or the type did not match.
   */
  lemma RemoteConfigValueTyped(env: Spec.Env, request: Request)
    requires request.RemoteConfigRequest?
    ensures var r := Spec.EvaluateContextual(env, RemoteConfigEvaluatorKind, request, [], []);
      r.0.Ok? ==>
        && r.0.value.reason in {IDENTIFIER_NOT_FOUND, TARGET_RULE_MATCH, DEFAULT_RULE, TYPE_MISMATCH}
        && (r.0.value.reason in {IDENTIFIER_NOT_FOUND, TYPE_MISMATCH} ==> r.0.value.value == request.defaultValue)
        && (r.0.value.reason in {TARGET_RULE_MATCH, DEFAULT_RULE} ==> ValidValue(request.requiredType, r.0.value.value))
  {
    assert request.key !in KeysOf([]);
  }

  /**
   * The events of an evaluated request: the first reports the evaluation
   * itself, the others the nested evaluations, which are exposures of
   * other experiments, each at most once; all carry one timestamp and the
   * request's user.
   */
  lemma ReportedByEvents(env: Spec.Env, request: Request, timestamp: int)
    requires Evaluated(env, if request.ExperimentRequest? then ExperimentEvaluatorKind else RemoteConfigEvaluatorKind, request, timestamp).Ok?
    ensures var r := Evaluated(env, if request.ExperimentRequest? then ExperimentEvaluatorKind else RemoteConfigEvaluatorKind, request, timestamp);
      var (evaluation, events) := r.value;
      && |events| > 0
      && Describes(events[0], evaluation)
      && (forall i :: 0 <= i < |events| ==> events[i].timestamp == timestamp && events[i].user == request.user)
      && (forall i :: 1 <= i < |events| ==>
            events[i].ExposureEvent? && EvaluatorKey(EXPERIMENT_KEY_TYPE, events[i].experiment.id) != request.key)
      && (forall i, j :: 1 <= i < j < |events| ==> events[i].experiment.id != events[j].experiment.id)
  {
    var kind := if request.ExperimentRequest? then ExperimentEvaluatorKind else RemoteConfigEvaluatorKind;
    var (evaluation, events) := Evaluated(env, kind, request, timestamp).value;
    var targets := evaluation.targetEvaluations;
    CreatedEvents(request, evaluation, timestamp);
    forall i | 1 <= i < |events|
      ensures events[i].ExposureEvent? && events[i].experiment == targets[i - 1].experiment
    {
      assert Describes(events[(i - 1) + 1], targets[i - 1]);
    }
    forall i, j | 1 <= i < j < |events|
      ensures events[i].experiment.id != events[j].experiment.id
    {
      assert targets[i - 1].ExperimentEvaluation? && targets[j - 1].ExperimentEvaluation?;
    }
  }

  // ----- the object -----

  /**
   * `Core`. The two evaluators it calls are the ones registered with the
   * delegating evaluator, which is what nested evaluation goes through;
   * `workspace` is what `WorkspaceFetcher#fetch` returns at present.
   */
  class Core {
    const evaluator: EvaluationEngine.DelegatingEvaluator
    const processor: Processors.DefaultUserEventProcessor
    var workspace: Option<Workspace>
    /** How many times `WorkspaceFetcher#stop` was called. */
    var fetcherStops: nat

    ghost predicate Valid()
      reads this, evaluator, processor
    {
      evaluator.evaluators == [ExperimentEvaluatorKind, RemoteConfigEvaluatorKind] && processor.Valid()
    }

    /** `Core.create`: registers the experiment evaluator, then the remote-config evaluator. */
    constructor Create(hasher: Bucketing.Hasher, workspace: Option<Workspace>, processor: Processors.DefaultUserEventProcessor)
      requires processor.Valid()
      ensures this.processor == processor && this.workspace == workspace && fetcherStops == 0
      ensures evaluator.hasher == hasher && fresh(evaluator)
      ensures Valid()
    {
      var delegating := new EvaluationEngine.DelegatingEvaluator(hasher);
      delegating.Add(ExperimentEvaluatorKind);
      delegating.Add(RemoteConfigEvaluatorKind);
      evaluator := delegating;
      this.processor := processor;
      this.workspace := workspace;
      fetcherStops := 0;
    }

    /** `events.each { |event| @event_processor.process(event) }` */
    method ProcessEvents(events: seq<UserEvent>)
      requires Valid()
      modifies processor
      ensures processor.queue == Processors.OfferAll(old(processor.queue), processor.capacity, events)
      ensures processor.State() == old(processor.State()) && processor.isStarted == old(processor.isStarted)
      ensures processor.flushScheduled == old(processor.flushScheduled)
      ensures processor.dispatcherShutdowns == old(processor.dispatcherShutdowns)
      ensures Valid()
    {
      for i := 0 to |events|
        invariant processor.queue == Processors.OfferAll(old(processor.queue), processor.capacity, events[..i])
        invariant processor.State() == old(processor.State()) && processor.isStarted == old(processor.isStarted)
        invariant processor.flushScheduled == old(processor.flushScheduled)
        invariant processor.dispatcherShutdowns == old(processor.dispatcherShutdowns)
        invariant Valid()
      {
        Processors.OfferAllStep(old(processor.queue), processor.capacity, events, i);
        processor.Process(events[i]);
      }
      assert events[..|events|] == events;
    }

    /** `experiment(experiment_key, user, default_variation)` */
    method Experiment(experimentKey: int, user: HackleUser, defaultVariation: string, now: int)
      returns (r: Result<ExperimentDecision>)
      requires Valid()
      modifies processor
      ensures var expected := DecideExperiment(Wiring(evaluator.hasher), workspace, experimentKey, user, defaultVariation, now);
        && (expected.Failure? ==> r == Failure(expected.error) && processor.queue == old(processor.queue))
        && (expected.Ok? ==>
              r == Ok(expected.value.0) &&
              processor.queue == Processors.OfferAll(old(processor.queue), processor.capacity, expected.value.1))
      ensures processor.State() == old(processor.State()) && processor.isStarted == old(processor.isStarted)
      ensures processor.flushScheduled == old(processor.flushScheduled)
      ensures processor.dispatcherShutdowns == old(processor.dispatcherShutdowns)
      ensures Valid()
    {
      if workspace.None? {
        return Ok(ExperimentDecision(defaultVariation, SDK_NOT_READY, ParameterConfigs.Empty()));
      }
      var experiment := GetExperimentOrNil(workspace.value, experimentKey);
      if experiment.None? {
        return Ok(ExperimentDecision(defaultVariation, EXPERIMENT_NOT_FOUND, ParameterConfigs.Empty()));
      }
      var request := CreateExperimentRequest(workspace.value, user, experiment.value, defaultVariation);
      var evaluation := EvaluateAndReport(ExperimentEvaluatorKind, request, now);
      if evaluation.Failure? {
        return Failure(evaluation.error);
      }
      r := Ok(ExperimentDecision(evaluation.value.variationKey, evaluation.value.reason, ParameterConfigOf(evaluation.value)));
    }

    /** `feature_flag(feature_key, user)` */
    method FeatureFlag(featureKey: int, user: HackleUser, now: int) returns (r: Result<FeatureFlagDecision>)
      requires Valid()
      modifies processor
      ensures var expected := DecideFeatureFlag(Wiring(evaluator.hasher), workspace, featureKey, user, now);
        && (expected.Failure? ==> r == Failure(expected.error) && processor.queue == old(processor.queue))
        && (expected.Ok? ==>
              r == Ok(expected.value.0) &&
              processor.queue == Processors.OfferAll(old(processor.queue), processor.capacity, expected.value.1))
      ensures processor.State() == old(processor.State()) && processor.isStarted == old(processor.isStarted)
      ensures processor.flushScheduled == old(processor.flushScheduled)
      ensures processor.dispatcherShutdowns == old(processor.dispatcherShutdowns)
      ensures Valid()
    {
      if workspace.None? {
        return Ok(FeatureFlagDecision(false, SDK_NOT_READY, ParameterConfigs.Empty()));
      }
      var featureFlag := GetFeatureFlagOrNil(workspace.value, featureKey);
      if featureFlag.None? {
        return Ok(FeatureFlagDecision(false, FEATURE_FLAG_NOT_FOUND, ParameterConfigs.Empty()));
      }
      var request := CreateExperimentRequest(workspace.value, user, featureFlag.value, "A");
      var evaluation := EvaluateAndReport(ExperimentEvaluatorKind, request, now);
      if evaluation.Failure? {
        return Failure(evaluation.error);
      }
      var isOn := evaluation.value.variationKey != "A";
      r := Ok(FeatureFlagDecision(isOn, evaluation.value.reason, ParameterConfigOf(evaluation.value)));
    }

    /** `remote_config(parameter_key, user, required_type, default_value)` */
    method RemoteConfig(parameterKey: Value, user: HackleUser, requiredType: ValueTypes.ValueType, defaultValue: Value, now: int)
      returns (r: Result<RemoteConfigDecision>)
      requires Valid()
      modifies processor
      ensures var expected := DecideRemoteConfig(Wiring(evaluator.hasher), workspace, parameterKey, user, requiredType, defaultValue, now);
        && (expected.Failure? ==> r == Failure(expected.error) && processor.queue == old(processor.queue))
        && (expected.Ok? ==>
              r == Ok(expected.value.0) &&
              processor.queue == Processors.OfferAll(old(processor.queue), processor.capacity, expected.value.1))
      ensures processor.State() == old(processor.State()) && processor.isStarted == old(processor.isStarted)
      ensures processor.flushScheduled == old(processor.flushScheduled)
      ensures processor.dispatcherShutdowns == old(processor.dispatcherShutdowns)
      ensures Valid()
    {
      if workspace.None? {
        return Ok(RemoteConfigDecision(defaultValue, SDK_NOT_READY));
      }
      var parameter := if parameterKey.Str? then GetRemoteConfigParameterOrNil(workspace.value, parameterKey.s) else None;
      if parameter.None? {
        return Ok(RemoteConfigDecision(defaultValue, REMOTE_CONFIG_PARAMETER_NOT_FOUND));
      }
      var request := CreateRemoteConfigRequest(workspace.value, user, parameter.value, requiredType, defaultValue);
      var evaluation := EvaluateAndReport(RemoteConfigEvaluatorKind, request, now);
      if evaluation.Failure? {
        return Failure(evaluation.error);
      }
      r := Ok(RemoteConfigDecision(evaluation.value.value, evaluation.value.reason));
    }

    /**
     * The part the three decisions share: evaluate the request and, when
     * that does not raise, hand the events made from the evaluation to the
     * processor.
     */
    method EvaluateAndReport(kind: EvaluatorKind, request: Request, now: int) returns (r: Result<Evaluation>)
      requires Valid() && Supports(kind, request)
      modifies processor
      ensures var expected := Evaluated(Wiring(evaluator.hasher), kind, request, now);
        && (expected.Failure? ==> r == Failure(expected.error) && processor.queue == old(processor.queue))
        && (expected.Ok? ==>
              r == Ok(expected.value.0) &&
              processor.queue == Processors.OfferAll(old(processor.queue), processor.capacity, expected.value.1))
      ensures processor.State() == old(processor.State()) && processor.isStarted == old(processor.isStarted)
      ensures processor.flushScheduled == old(processor.flushScheduled)
      ensures processor.dispatcherShutdowns == old(processor.dispatcherShutdowns)
      ensures Valid()
    {
      r := Evaluate(kind, request, now);
      if r.Failure? {
        return;
      }
      var events := UserEvents.Create(request, r.value, now);
      ProcessEvents(events);
    }

    /** `@experiment_evaluator.evaluate(request, Evaluator.context)` or the remote-config evaluator's, with a fresh context. */
    method Evaluate(kind: EvaluatorKind, request: Request, now: int) returns (r: Result<Evaluation>)
      requires Valid() && Supports(kind, request)
      ensures var expected := Evaluated(Wiring(evaluator.hasher), kind, request, now);
        (r.Failure? <==> expected.Failure?) &&
        (r.Failure? ==> r.error == expected.error) &&
        (r.Ok? ==> r.value == expected.value.0)
    {
      var context := new EvaluatorContext();
      r := evaluator.EvaluateContextual(kind, request, context);
    }

    /** `track(event, user)` */
    method Track(event: Events.Event, user: HackleUser, now: int)
      requires Valid()
      modifies processor
      ensures processor.queue == Processors.Offer(old(processor.queue), processor.capacity,
                                                  Processors.EventMessage(TrackEventOf(workspace, event, user, now)))
      ensures processor.State() == old(processor.State()) && processor.isStarted == old(processor.isStarted)
      ensures processor.flushScheduled == old(processor.flushScheduled)
      ensures processor.dispatcherShutdowns == old(processor.dispatcherShutdowns)
      ensures Valid()
    {
      var eventType := EventTypeOf(workspace, event.key);
      processor.Process(TrackEvent(now, user, eventType.0, eventType.1, event));
    }

    /** `close`: stops the workspace fetcher, then the event processor. */
    method Close()
      requires Valid()
      modifies this, processor
      ensures fetcherStops == old(fetcherStops) + 1 && workspace == old(workspace)
      ensures !processor.isStarted && !processor.flushScheduled
      ensures !old(processor.isStarted) ==>
        processor.queue == old(processor.queue) && processor.State() == old(processor.State()) &&
        processor.dispatcherShutdowns == old(processor.dispatcherShutdowns)
      ensures old(processor.isStarted) ==>
        processor.queue == [] && processor.dispatcherShutdowns == old(processor.dispatcherShutdowns) + 1 &&
        processor.State() == Processors.DispatchEvents(Processors.HandleAll(old(processor.State()), old(processor.queue), processor.dispatchSize))
      ensures Valid()
    {
      fetcherStops := fetcherStops + 1;
      processor.Stop();
    }
  }
}
