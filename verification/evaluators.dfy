/**
 * The evaluator vocabulary shared by the pure specification and the
 * imperative engine: keys, requests, evaluations, the evaluation context
 * (a stack of in-flight requests and a list of nested evaluations), and
 * the records the experiment and remote-config evaluators build.
 */
module Evaluators {
  import opened Wrappers
  import opened RubyValues
  import opened OrderedMaps
  import opened Model
  import opened Workspaces
  import opened Users
  import ParameterConfigs
  import opened DecisionReasons
  import opened PropertiesBuilders
  import ValueTypes

  // ----- keys and requests -----

  /** `EvaluatorKey`: equal iff type and id are equal (structural equality). */
  datatype EvaluatorKey = EvaluatorKey(keyType: string, id: int)

  const EXPERIMENT_KEY_TYPE: string := "EXPERIMENT"
  const REMOTE_CONFIG_KEY_TYPE: string := "REMOTE_CONFIG"

  /**
   * `EvaluatorRequest` and its two subclasses. Two requests are the same
   * request (`==`) exactly when their keys are equal; the context compares
   * requests through `KeysOf`.
   */
  datatype Request =
    | ExperimentRequest(key: EvaluatorKey, workspace: Workspace, user: HackleUser,
                        experiment: Experiment, defaultVariationKey: string)
    | RemoteConfigRequest(key: EvaluatorKey, workspace: Workspace, user: HackleUser,
                          parameter: RemoteConfigParameter, requiredType: ValueTypes.ValueType, defaultValue: Value)

  /** `ExperimentRequest.create`: keyed by the experiment's id. */
  function CreateExperimentRequest(workspace: Workspace, user: HackleUser, experiment: Experiment,
                                   defaultVariationKey: string): (r: Request)
    ensures r.ExperimentRequest? && r.key == EvaluatorKey(EXPERIMENT_KEY_TYPE, experiment.id)
  {
    ExperimentRequest(EvaluatorKey(EXPERIMENT_KEY_TYPE, experiment.id), workspace, user, experiment, defaultVariationKey)
  }

  /** `ExperimentRequest.create_by`: a nested request for the same workspace and user, defaulting to `'A'`. */
  function CreateExperimentRequestBy(request: Request, experiment: Experiment): (r: Request)
    ensures r.ExperimentRequest? && r.key == EvaluatorKey(EXPERIMENT_KEY_TYPE, experiment.id)
    ensures r.workspace == request.workspace && r.user == request.user && r.defaultVariationKey == "A"
  {
    ExperimentRequest(EvaluatorKey(EXPERIMENT_KEY_TYPE, experiment.id), request.workspace, request.user, experiment, "A")
  }

  /** `RemoteConfigRequest.create`: keyed by the parameter's id. */
  function CreateRemoteConfigRequest(workspace: Workspace, user: HackleUser, parameter: RemoteConfigParameter,
                                     requiredType: ValueTypes.ValueType, defaultValue: Value): (r: Request)
    ensures r.RemoteConfigRequest? && r.key == EvaluatorKey(REMOTE_CONFIG_KEY_TYPE, parameter.id)
  {
    RemoteConfigRequest(EvaluatorKey(REMOTE_CONFIG_KEY_TYPE, parameter.id), workspace, user, parameter, requiredType, defaultValue)
  }

  /** The keys of the requests in flight. */
  function KeysOf(requests: seq<Request>): set<EvaluatorKey>
  {
    set r | r in requests :: r.key
  }

  /**
   * Every key a request for this workspace can carry: one per experiment,
   * feature flag and remote-config parameter. Nested evaluation only ever
   * asks for these, which bounds the depth of nesting.
   */
  function Universe(workspace: Workspace): set<EvaluatorKey>
  {
    (set k | k in workspace.experiments :: EvaluatorKey(EXPERIMENT_KEY_TYPE, workspace.experiments[k].id)) +
    (set k | k in workspace.featureFlags :: EvaluatorKey(EXPERIMENT_KEY_TYPE, workspace.featureFlags[k].id)) +
    (set k | k in workspace.remoteConfigParameters ::
       EvaluatorKey(REMOTE_CONFIG_KEY_TYPE, workspace.remoteConfigParameters[k].id))
  }

  /** A nested request for an experiment or feature flag of the workspace carries a key of the universe. */
  lemma NestedKeyInUniverse(request: Request, k: int, experiment: Experiment)
    requires (k in request.workspace.experiments && request.workspace.experiments[k] == experiment) ||
             (k in request.workspace.featureFlags && request.workspace.featureFlags[k] == experiment)
    ensures CreateExperimentRequestBy(request, experiment).key in Universe(request.workspace)
  {
    var ws := request.workspace;
    if k in ws.experiments && ws.experiments[k] == experiment {
      assert EvaluatorKey(EXPERIMENT_KEY_TYPE, ws.experiments[k].id) in Universe(ws);
    } else {
      assert EvaluatorKey(EXPERIMENT_KEY_TYPE, ws.featureFlags[k].id) in Universe(ws);
    }
  }

  /** Pushing a request adds exactly its key to the keys in flight. */
  lemma KeysOfPush(requests: seq<Request>, request: Request)
    ensures KeysOf(requests + [request]) == KeysOf(requests) + {request.key}
  {
    var pushed := KeysOf(requests + [request]);
    forall k
      ensures k in pushed <==> k in KeysOf(requests) || k == request.key
    {
      if k in pushed {
        var r :| r in requests + [request] && r.key == k;
        if r != request {
          assert r in requests;
        }
      }
      if k in KeysOf(requests) {
        var r :| r in requests && r.key == k;
        assert r in requests + [request];
      }
      if k == request.key {
        assert request in requests + [request];
      }
    }
  }

  /** Pushing a request that is not in flight strictly shrinks the set of keys still available. */
  lemma PushShrinks(universe: set<EvaluatorKey>, requests: seq<Request>, request: Request)
    requires request.key !in KeysOf(requests)
    ensures |universe - KeysOf(requests + [request])| < |(universe + {request.key}) - KeysOf(requests)|
  {
    var pushed := KeysOf(requests + [request]);
    KeysOfPush(requests, request);
    var smaller := universe - pushed;
    var larger := (universe + {request.key}) - KeysOf(requests);
    assert larger == smaller + {request.key};
    assert request.key !in smaller;
  }

  /** Asking for a key of the universe adds nothing to the keys still available. */
  lemma UniverseAbsorbs(universe: set<EvaluatorKey>, key: EvaluatorKey, inFlight: set<EvaluatorKey>)
    requires key in universe
    ensures (universe + {key}) - inFlight == universe - inFlight
  {
  }

  /** `Array#delete`: every request equal to (with the same key as) the given one is removed. */
  function RemoveRequests(requests: seq<Request>, key: EvaluatorKey): (r: seq<Request>)
    ensures forall x :: x in r <==> x in requests && x.key != key
    ensures |r| <= |requests|
  {
    if |requests| == 0 then []
    else if requests[0].key == key then RemoveRequests(requests[1..], key)
    else [requests[0]] + RemoveRequests(requests[1..], key)
  }

  /** Removing a key that is not in flight changes nothing. */
  lemma {:induction false} RemoveAbsent(requests: seq<Request>, key: EvaluatorKey)
    requires key !in KeysOf(requests)
    ensures RemoveRequests(requests, key) == requests
  {
    if |requests| > 0 {
      assert requests[0] in requests;
      assert KeysOf(requests[1..]) <= KeysOf(requests) by {
        forall k | k in KeysOf(requests[1..])
          ensures k in KeysOf(requests)
        {
          var r :| r in requests[1..] && r.key == k;
          assert r in requests;
        }
      }
      RemoveAbsent(requests[1..], key);
      assert requests == [requests[0]] + requests[1..];
    }
  }

  /** Push then pop restores the stack exactly, when the pushed key was not in flight. */
  lemma {:induction false} PopAfterPush(requests: seq<Request>, request: Request)
    requires request.key !in KeysOf(requests)
    ensures RemoveRequests(requests + [request], request.key) == requests
  {
    if |requests| == 0 {
      assert RemoveRequests([request], request.key) == RemoveRequests([], request.key);
    } else {
      assert requests[0] in requests;
      assert (requests + [request])[1..] == requests[1..] + [request];
      assert KeysOf(requests[1..]) <= KeysOf(requests) by {
        forall k | k in KeysOf(requests[1..])
          ensures k in KeysOf(requests)
        {
          var r :| r in requests[1..] && r.key == k;
          assert r in requests;
        }
      }
      PopAfterPush(requests[1..], request);
      assert requests == [requests[0]] + requests[1..];
    }
  }

  // ----- evaluations -----

  /** `ExperimentEvaluation` and `RemoteConfigEvaluation`, each with the nested evaluations seen while it was made. */
  datatype Evaluation =
    | ExperimentEvaluation(reason: DecisionReason, targetEvaluations: seq<Evaluation>, experiment: Experiment,
                           variationId: Option<int>, variationKey: string, config: Option<ParameterConfiguration>)
    | RemoteConfigEvaluation(reason: DecisionReason, targetEvaluations: seq<Evaluation>, parameter: RemoteConfigParameter,
                             valueId: Option<int>, value: Value, properties: seq<(string, Value)>)

  /** `ExperimentEvaluation.configuration_or_nil`: the workspace's configuration for the variation, if it names one. */
  function ConfigurationOrNil(workspace: Workspace, variation: Variation): (r: Option<ParameterConfiguration>)
    ensures r.Some? <==> variation.parameterConfigurationId.Some? &&
                         variation.parameterConfigurationId.value in workspace.parameterConfigurations
    ensures r.Some? ==> r.value == workspace.parameterConfigurations[variation.parameterConfigurationId.value]
  {
    if variation.parameterConfigurationId.None? then None
    else GetParameterConfigurationOrNil(workspace, variation.parameterConfigurationId.value)
  }

  /** `ExperimentEvaluation.create`: the variation, its configuration, and a snapshot of the context's evaluations. */
  function CreateEvaluation(request: Request, evaluations: seq<Evaluation>, variation: Variation,
                            reason: DecisionReason): (r: Evaluation)
    requires request.ExperimentRequest?
    ensures r.ExperimentEvaluation? && r.reason == reason && r.targetEvaluations == evaluations
    ensures r.experiment == request.experiment
    ensures r.variationId == Some(variation.id) && r.variationKey == variation.key
    ensures r.config == ConfigurationOrNil(request.workspace, variation)
  {
    ExperimentEvaluation(reason, evaluations, request.experiment, Some(variation.id), variation.key,
                         ConfigurationOrNil(request.workspace, variation))
  }

  /**
   * `ExperimentEvaluation.create_default`: the variation keyed by the
   * request's default key when the experiment has one; otherwise just
   * that key, with no id and no configuration.
   */
  function CreateDefaultEvaluation(request: Request, evaluations: seq<Evaluation>, reason: DecisionReason): (r: Evaluation)
    requires request.ExperimentRequest?
    ensures r.ExperimentEvaluation? && r.reason == reason && r.targetEvaluations == evaluations
    ensures r.experiment == request.experiment && r.variationKey == request.defaultVariationKey
    ensures GetVariationOrNilByKey(request.experiment, request.defaultVariationKey).None? ==>
      r.variationId.None? && r.config.None?
    ensures GetVariationOrNilByKey(request.experiment, request.defaultVariationKey).Some? ==>
      var v := GetVariationOrNilByKey(request.experiment, request.defaultVariationKey).value;
      r.variationId == Some(v.id) && r.config == ConfigurationOrNil(request.workspace, v)
  {
    var variation := GetVariationOrNilByKey(request.experiment, request.defaultVariationKey);
    if variation.Some? then CreateEvaluation(request, evaluations, variation.value, reason)
    else ExperimentEvaluation(reason, evaluations, request.experiment, None, request.defaultVariationKey, None)
  }

  /** `ExperimentEvaluation#with`: the same evaluation under another reason. */
  function With(evaluation: Evaluation, reason: DecisionReason): (r: Evaluation)
    requires evaluation.ExperimentEvaluation?
    ensures r.ExperimentEvaluation? && r.reason == reason
    ensures r.targetEvaluations == evaluation.targetEvaluations && r.experiment == evaluation.experiment
    ensures r.variationId == evaluation.variationId && r.variationKey == evaluation.variationKey
    ensures r.config == evaluation.config
  {
    ExperimentEvaluation(reason, evaluation.targetEvaluations, evaluation.experiment,
                         evaluation.variationId, evaluation.variationKey, evaluation.config)
  }

  /** `ExperimentEvaluation#parameter_config`: empty without a configuration, else its parameters. */
  function ParameterConfigOf(evaluation: Evaluation): (r: ParameterConfigs.ParameterConfig)
    requires evaluation.ExperimentEvaluation?
    ensures evaluation.config.None? ==> r == ParameterConfigs.Empty()
    ensures evaluation.config.Some? ==> r.parameters == evaluation.config.value.parameters
  {
    if evaluation.config.None? then ParameterConfigs.Empty()
    else ParameterConfigs.ParameterConfig(evaluation.config.value.parameters)
  }

  /**
   * `RemoteConfigEvaluator#valid?`: whether a raw value may be returned for
   * the type the caller asked for. NULL accepts anything; STRING, NUMBER
   * and BOOLEAN accept their own kind; the other types accept nothing.
   */
  predicate ValidValue(requiredType: ValueTypes.ValueType, value: Value)
  {
    match requiredType
    case NULL => true
    case STRING => value.Str?
    case NUMBER => value.Num?
    case BOOLEAN => value.Bool?
    case _ => false
  }

  /** `RemoteConfigEvaluation.create`: records `returnValue` in the properties, then snapshots the evaluations. */
  function CreateRemoteConfigEvaluation(request: Request, evaluations: seq<Evaluation>, valueId: Option<int>,
                                        value: Value, reason: DecisionReason,
                                        properties: seq<(string, Value)>): (r: Evaluation)
    requires request.RemoteConfigRequest?
    ensures r.RemoteConfigEvaluation? && r.reason == reason && r.targetEvaluations == evaluations
    ensures r.parameter == request.parameter && r.valueId == valueId && r.value == value
    ensures PropertiesValid(properties) ==> PropertiesValid(r.properties)
    ensures PropertiesValid(properties) && |properties| < MAX_PROPERTIES_COUNT &&
            SanitizeValueOrNil("returnValue", value).Some? ==>
      Get(r.properties, "returnValue") == SanitizeValueOrNil("returnValue", value)
    ensures PropertiesValid(properties) ==>
      forall k :: k != "returnValue" ==> Get(r.properties, k) == Get(properties, k)
  {
    var withReturn := AddProperty(properties, Str("returnValue"), value);
    assert PropertiesValid(properties) ==> PropertiesValid(withReturn) && forall k :: k != "returnValue" ==> Get(withReturn, k) == Get(properties, k) by {
      if PropertiesValid(properties) {
        AddPropertyEffect(properties, Str("returnValue"), value, "");
        forall k | k != "returnValue"
          ensures Get(withReturn, k) == Get(properties, k)
        {
          AddPropertyEffect(properties, Str("returnValue"), value, k);
        }
      }
    }
    assert PropertiesValid(properties) && |properties| < MAX_PROPERTIES_COUNT &&
           SanitizeValueOrNil("returnValue", value).Some? ==>
      Get(withReturn, "returnValue") == SanitizeValueOrNil("returnValue", value) by {
      if PropertiesValid(properties) && |properties| < MAX_PROPERTIES_COUNT {
        AddPropertyEffect(properties, Str("returnValue"), value, "");
      }
    }
    RemoteConfigEvaluation(reason, evaluations, request.parameter, valueId, value, withReturn)
  }

  /**
   * `RemoteConfigEvaluator#evaluation`: the parameter value when it has the
   * type the caller asked for; otherwise the caller's default with
   * TYPE_MISMATCH. Either way the returned value is recorded as
   * `returnValue` on top of the properties gathered so far.
   */
  function ValueEvaluation(request: Request, evaluations: seq<Evaluation>, parameterValue: RemoteConfigValue,
                           reason: DecisionReason, properties: seq<(string, Value)>): (r: Evaluation)
    requires request.RemoteConfigRequest?
    ensures r.RemoteConfigEvaluation? && r.parameter == request.parameter && r.targetEvaluations == evaluations
    ensures ValidValue(request.requiredType, parameterValue.rawValue) ==>
      r.reason == reason && r.valueId == Some(parameterValue.id) && r.value == parameterValue.rawValue
    ensures !ValidValue(request.requiredType, parameterValue.rawValue) ==>
      r.reason == TYPE_MISMATCH && r.valueId.None? && r.value == request.defaultValue
    ensures PropertiesValid(properties) ==> PropertiesValid(r.properties)
    ensures PropertiesValid(properties) && |properties| < MAX_PROPERTIES_COUNT &&
            SanitizeValueOrNil("returnValue", r.value).Some? ==>
      Get(r.properties, "returnValue") == SanitizeValueOrNil("returnValue", r.value)
    ensures PropertiesValid(properties) ==>
      forall k :: k != "returnValue" ==> Get(r.properties, k) == Get(properties, k)
  {
    if ValidValue(request.requiredType, parameterValue.rawValue) then
      CreateRemoteConfigEvaluation(request, evaluations, Some(parameterValue.id), parameterValue.rawValue, reason, properties)
    else
      CreateRemoteConfigEvaluation(request, evaluations, None, request.defaultValue, TYPE_MISMATCH, properties)
  }

  /**
   * What every remote-config evaluation states: one of its four reasons; a
   * rule's or the default rule's value, of the requested type, or else the
   * caller's default without a value id; and properties that record the
   * requested type and the returned value.
   */
  predicate RemoteConfigOutcome(request: Request, e: Evaluation)
    requires request.RemoteConfigRequest?
  {
    && e.RemoteConfigEvaluation?
    && e.reason in {IDENTIFIER_NOT_FOUND, TARGET_RULE_MATCH, DEFAULT_RULE, TYPE_MISMATCH}
    && (e.reason in {TARGET_RULE_MATCH, DEFAULT_RULE} ==> e.valueId.Some? && ValidValue(request.requiredType, e.value))
    && (e.reason in {IDENTIFIER_NOT_FOUND, TYPE_MISMATCH} ==> e.valueId.None? && e.value == request.defaultValue)
    && (e.reason == DEFAULT_RULE ==>
          e.valueId == Some(request.parameter.defaultValue.id) && e.value == request.parameter.defaultValue.rawValue)
    && (e.reason == TARGET_RULE_MATCH ==>
          exists rule :: rule in request.parameter.targetRules &&
            e.valueId == Some(rule.value.id) && e.value == rule.value.rawValue)
    && PropertiesValid(e.properties)
    && Get(e.properties, "requestValueType") == Some(Str(ValueTypes.Name(request.requiredType)))
    && (SanitizeValueOrNil("returnValue", e.value).Some? ==>
          Get(e.properties, "returnValue") == SanitizeValueOrNil("returnValue", e.value))
  }

  /**
   * An evaluation of the default rule's value, or of a value some target
   * rule holds, on properties that record the requested type, is such an
   * outcome whether or not the value has the requested type.
   */
  lemma ValueEvaluationOutcome(request: Request, evaluations: seq<Evaluation>, parameterValue: RemoteConfigValue,
                               reason: DecisionReason, properties: seq<(string, Value)>)
    requires request.RemoteConfigRequest?
    requires reason == DEFAULT_RULE || reason == TARGET_RULE_MATCH
    requires reason == DEFAULT_RULE ==> parameterValue == request.parameter.defaultValue
    requires reason == TARGET_RULE_MATCH ==>
      exists rule :: rule in request.parameter.targetRules && rule.value == parameterValue
    requires PropertiesValid(properties) && |properties| < MAX_PROPERTIES_COUNT
    requires Get(properties, "requestValueType") == Some(Str(ValueTypes.Name(request.requiredType)))
    ensures RemoteConfigOutcome(request, ValueEvaluation(request, evaluations, parameterValue, reason, properties))
  {
  }

  /** The caller's default with IDENTIFIER_NOT_FOUND, on properties that record the requested type, is such an outcome. */
  lemma IdentifierNotFoundOutcome(request: Request, evaluations: seq<Evaluation>, properties: seq<(string, Value)>)
    requires request.RemoteConfigRequest?
    requires PropertiesValid(properties) && |properties| < MAX_PROPERTIES_COUNT
    requires Get(properties, "requestValueType") == Some(Str(ValueTypes.Name(request.requiredType)))
    ensures RemoteConfigOutcome(request, CreateRemoteConfigEvaluation(request, evaluations, None, request.defaultValue,
                                                                      IDENTIFIER_NOT_FOUND, properties))
  {
  }

  /** An evaluation is an answer to a request: of the requested experiment, or of the requested parameter. */
  predicate Answers(request: Request, evaluation: Evaluation)
  {
    match request
    case ExperimentRequest(_, _, _, experiment, _) =>
      evaluation.ExperimentEvaluation? && evaluation.experiment == experiment
    case RemoteConfigRequest(_, _, _, parameter, _, _) =>
      evaluation.RemoteConfigEvaluation? && evaluation.parameter == parameter
  }

  // ----- the context -----

  /**
   * `EvaluatorContext`: the requests in flight, innermost last, and the
   * evaluations made for targeting, in the order they were made.
   */
  class EvaluatorContext {
    var requests: seq<Request>
    var evaluations: seq<Evaluation>

    /** A fresh context: nothing in flight, nothing evaluated. */
    constructor()
      ensures requests == [] && evaluations == []
    {
      requests := [];
      evaluations := [];
    }

    /** `request_include?`: some request in flight has the same key. */
    predicate RequestInclude(request: Request)
      reads this
    {
      request.key in KeysOf(requests)
    }

    /** `add_request`: push. */
    method AddRequest(request: Request)
      modifies this
      ensures requests == old(requests) + [request] && evaluations == old(evaluations)
      ensures RequestInclude(request)
    {
      requests := requests + [request];
      assert request in requests;
    }

    /** `remove_request`: `Array#delete`, which drops every request with the same key. */
    method RemoveRequest(request: Request)
      modifies this
      ensures requests == RemoveRequests(old(requests), request.key) && evaluations == old(evaluations)
      ensures !RequestInclude(request)
    {
      requests := RemoveRequests(requests, request.key);
    }

    /** `add_evaluation`: append. */
    method AddEvaluation(evaluation: Evaluation)
      modifies this
      ensures evaluations == old(evaluations) + [evaluation] && requests == old(requests)
    {
      evaluations := evaluations + [evaluation];
    }
  }

  // ----- the evaluators the delegating evaluator can hold -----

  datatype EvaluatorKind = ExperimentEvaluatorKind | RemoteConfigEvaluatorKind

  /** `ExperimentEvaluator#supports?` and `RemoteConfigEvaluator#supports?`: by request class. */
  predicate Supports(kind: EvaluatorKind, request: Request)
  {
    match kind
    case ExperimentEvaluatorKind => request.ExperimentRequest?
    case RemoteConfigEvaluatorKind => request.RemoteConfigRequest?
  }
}
