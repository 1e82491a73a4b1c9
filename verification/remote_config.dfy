/**
 * `Hackle::RemoteConfig`: a user's handle on remote-config parameters.
 * `get` infers the type it asks for from the default value, and never
 * raises: a user that does not resolve, a nil key or an error inside the
 * core all give the default back.
 */
module RemoteConfigs {
  import opened Wrappers
  import opened RubyValues
  import opened Users
  import opened Evaluators
  import opened DecisionReasons
  import opened HackleCore
  import Workspaces
  import ValueTypes
  import Spec = EvaluationSpec
  import Processors = UserEventProcessors
  import UserEvents

  /** The `case default_value` of `get`: nil, String, Numeric and true/false name their type; anything else is UNKNOWN. */
  function RequiredTypeOf(defaultValue: Value): (r: ValueTypes.ValueType)
    ensures r == ValueTypes.NULL <==> defaultValue.Null?
    ensures r == ValueTypes.STRING <==> defaultValue.Str?
    ensures r == ValueTypes.NUMBER <==> defaultValue.Num?
    ensures r == ValueTypes.BOOLEAN <==> defaultValue.Bool?
    ensures r == ValueTypes.UNKNOWN <==> defaultValue.Arr? || defaultValue.Hash? || defaultValue.Other?
  {
    match defaultValue
    case Null => ValueTypes.NULL
    case Str(_) => ValueTypes.STRING
    case Num(_) => ValueTypes.NUMBER
    case Bool(_) => ValueTypes.BOOLEAN
    case _ => ValueTypes.UNKNOWN
  }

  /** `decision(key, default_value, required_type)`: the decision, and the events the core handed to the processor. */
  function Decide(env: Spec.Env, workspace: Option<Workspaces.Workspace>, user: Option<User>, key: Value,
                  defaultValue: Value, requiredType: ValueTypes.ValueType, timestamp: int)
    : (RemoteConfigDecision, seq<UserEvents.UserEvent>)
  {
    var hackleUser := Resolve(user);
    if hackleUser.None? then (RemoteConfigDecision(defaultValue, INVALID_INPUT), [])
    else if key.Null? then (RemoteConfigDecision(defaultValue, INVALID_INPUT), [])
    else
      var decided := DecideRemoteConfig(env, workspace, key, hackleUser.value, requiredType, defaultValue, timestamp);
      if decided.Failure? then (RemoteConfigDecision(defaultValue, EXCEPTION), [])
      else decided.value
  }

  /** `get(key, default_value)` */
  function Get(env: Spec.Env, workspace: Option<Workspaces.Workspace>, user: Option<User>, key: Value,
               defaultValue: Value, timestamp: int): Value
  {
    Decide(env, workspace, user, key, defaultValue, RequiredTypeOf(defaultValue), timestamp).0.value
  }

  /**
   * Where a decision's value comes from: every reason but the two that
   * come from a rule means the caller's default (and, except for the
   * two the remote-config evaluator gives, that no event was made); a
   * rule's value has the type asked for.
   */
  lemma DecisionFallsBack(env: Spec.Env, workspace: Option<Workspaces.Workspace>, user: Option<User>, key: Value,
                          defaultValue: Value, requiredType: ValueTypes.ValueType, timestamp: int)
    ensures var (decision, events) := Decide(env, workspace, user, key, defaultValue, requiredType, timestamp);
      && (Resolve(user).None? || key.Null? ==> decision == RemoteConfigDecision(defaultValue, INVALID_INPUT) && events == [])
      && decision.reason in {INVALID_INPUT, EXCEPTION, SDK_NOT_READY, REMOTE_CONFIG_PARAMETER_NOT_FOUND,
                             IDENTIFIER_NOT_FOUND, TYPE_MISMATCH, TARGET_RULE_MATCH, DEFAULT_RULE}
      && (decision.reason !in {TARGET_RULE_MATCH, DEFAULT_RULE} ==> decision.value == defaultValue)
      && (decision.reason in {TARGET_RULE_MATCH, DEFAULT_RULE} ==> ValidValue(requiredType, decision.value))
      && (events == [] <==> decision.reason in {INVALID_INPUT, EXCEPTION, SDK_NOT_READY, REMOTE_CONFIG_PARAMETER_NOT_FOUND})
  {
    var hackleUser := Resolve(user);
    if hackleUser.Some? && !key.Null? {
      RemoteConfigDecisionReported(env, workspace, key, hackleUser.value, requiredType, defaultValue, timestamp);
    }
  }

  /**
   * `get` hands back a value of the default's own kind: a String for a
   * String default, a number for a number, a boolean for a boolean, and
   * the default itself for any other default but nil.
   */
  lemma GetKeepsKind(env: Spec.Env, workspace: Option<Workspaces.Workspace>, user: Option<User>, key: Value,
                     defaultValue: Value, timestamp: int)
    ensures var value := Get(env, workspace, user, key, defaultValue, timestamp);
      && (defaultValue.Str? ==> value.Str?)
      && (defaultValue.Num? ==> value.Num?)
      && (defaultValue.Bool? ==> value.Bool?)
      && (defaultValue.Arr? || defaultValue.Hash? || defaultValue.Other? ==> value == defaultValue)
  {
    DecisionFallsBack(env, workspace, user, key, defaultValue, RequiredTypeOf(defaultValue), timestamp);
  }

  /** `RemoteConfig`: the user it was made for, and the core it asks. */
  class RemoteConfig {
    const user: Option<User>
    const core: Core

    constructor(user: Option<User>, core: Core)
      ensures this.user == user && this.core == core
    {
      this.user := user;
      this.core := core;
    }

    /** `get(key, default_value)` */
    method Get(key: Value, defaultValue: Value, now: int) returns (value: Value)
      requires core.Valid()
      modifies core.processor
      ensures var expected := Decide(Wiring(core.evaluator.hasher), core.workspace, user, key, defaultValue,
                                     RequiredTypeOf(defaultValue), now);
        value == expected.0.value &&
        core.processor.queue == Processors.OfferAll(old(core.processor.queue), core.processor.capacity, expected.1)
      ensures core.processor.State() == old(core.processor.State()) && core.processor.isStarted == old(core.processor.isStarted)
      ensures core.processor.flushScheduled == old(core.processor.flushScheduled)
      ensures core.processor.dispatcherShutdowns == old(core.processor.dispatcherShutdowns)
      ensures core.Valid()
    {
      var requiredType: ValueTypes.ValueType;
      match defaultValue {
        case Null => requiredType := ValueTypes.NULL;
        case Str(_) => requiredType := ValueTypes.STRING;
        case Num(_) => requiredType := ValueTypes.NUMBER;
        case Bool(_) => requiredType := ValueTypes.BOOLEAN;
        case _ => requiredType := ValueTypes.UNKNOWN;
      }
      var decision := Decision(key, defaultValue, requiredType, now);
      value := decision.value;
    }

    /** `decision(key, default_value, required_type)`: an error raised by the core becomes EXCEPTION. */
    method Decision(key: Value, defaultValue: Value, requiredType: ValueTypes.ValueType, now: int)
      returns (decision: RemoteConfigDecision)
      requires core.Valid()
      modifies core.processor
      ensures var expected := Decide(Wiring(core.evaluator.hasher), core.workspace, user, key, defaultValue, requiredType, now);
        decision == expected.0 &&
        core.processor.queue == Processors.OfferAll(old(core.processor.queue), core.processor.capacity, expected.1)
      ensures core.processor.State() == old(core.processor.State()) && core.processor.isStarted == old(core.processor.isStarted)
      ensures core.processor.flushScheduled == old(core.processor.flushScheduled)
      ensures core.processor.dispatcherShutdowns == old(core.processor.dispatcherShutdowns)
      ensures core.Valid()
    {
      var hackleUser := ResolveOrNil(user);
      if hackleUser.None? || key.Null? {
        return RemoteConfigDecision(defaultValue, INVALID_INPUT);
      }
      var decided := core.RemoteConfig(key, hackleUser.value, requiredType, defaultValue, now);
      if decided.Failure? {
        return RemoteConfigDecision(defaultValue, EXCEPTION);
      }
      decision := decided.value;
    }
  }
}
