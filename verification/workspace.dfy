/**
 * `Workspace`: the immutable snapshot of one environment's configuration,
 * indexed for lookup, and its decoding from the server's JSON document.
 */
module Workspaces {
  import opened Wrappers
  import opened RubyValues
  import opened Model
  import opened Targeting
  import opened Seqs
  import ValueTypes
  import TargetKeyTypes
  import TargetMatchTypes
  import TargetOperators
  import ExperimentTypes
  import ExperimentStatuses
  import ActionTypes
  import SegmentTypes

  datatype Workspace = Workspace(
    experiments: map<int, Experiment>,
    featureFlags: map<int, Experiment>,
    buckets: map<int, Bucket>,
    eventTypes: map<string, EventType>,
    segments: map<string, Segment>,
    containers: map<int, Container>,
    parameterConfigurations: map<int, ParameterConfiguration>,
    remoteConfigParameters: map<string, RemoteConfigParameter>)

  // ----- getters -----

  /** `hash[key]`: the stored entity, or nil when the key is absent. */
  function Lookup<K, V>(m: map<K, V>, key: K): (r: Option<V>)
    ensures r.None? <==> key !in m
    ensures r.Some? ==> key in m && r.value == m[key]
  {
    if key in m then Some(m[key]) else None
  }

  function GetExperimentOrNil(ws: Workspace, experimentKey: int): Option<Experiment> { Lookup(ws.experiments, experimentKey) }
  function GetFeatureFlagOrNil(ws: Workspace, featureKey: int): Option<Experiment> { Lookup(ws.featureFlags, featureKey) }
  function GetEventTypeOrNil(ws: Workspace, eventTypeKey: string): Option<EventType> { Lookup(ws.eventTypes, eventTypeKey) }
  function GetBucketOrNil(ws: Workspace, bucketId: int): Option<Bucket> { Lookup(ws.buckets, bucketId) }
  function GetSegmentOrNil(ws: Workspace, segmentKey: string): Option<Segment> { Lookup(ws.segments, segmentKey) }
  function GetContainerOrNil(ws: Workspace, containerId: int): Option<Container> { Lookup(ws.containers, containerId) }
  function GetParameterConfigurationOrNil(ws: Workspace, id: int): Option<ParameterConfiguration> { Lookup(ws.parameterConfigurations, id) }
  function GetRemoteConfigParameterOrNil(ws: Workspace, parameterKey: string): Option<RemoteConfigParameter> { Lookup(ws.remoteConfigParameters, parameterKey) }

  // ----- create -----

  /** `items.each_with_object({}) { |item, hash| hash[key(item)] = item }` */
  function Index<K(==,!new), T>(items: seq<T>, key: T -> K): (r: map<K, T>)
    ensures forall k :: k in r <==> exists i :: 0 <= i < |items| && key(items[i]) == k
  {
    if |items| == 0 then map[]
    else
      var rest := Index(items[..|items| - 1], key);
      assert forall i :: 0 <= i < |items| - 1 ==> items[..|items| - 1][i] == items[i];
      rest[key(items[|items| - 1]) := items[|items| - 1]]
  }

  /** Indexing keeps, for each key, the last item with that key: a later duplicate overwrites an earlier one. */
  lemma {:induction false} IndexLastWins<K(!new), T>(items: seq<T>, key: T -> K, k: K)
    requires k in Index(items, key)
    ensures exists i :: 0 <= i < |items| && key(items[i]) == k && Index(items, key)[k] == items[i] &&
                        forall j :: i < j < |items| ==> key(items[j]) != k
  {
    var n := |items| - 1;
    if key(items[n]) == k {
      assert Index(items, key)[k] == items[n];
    } else {
      IndexLastWins(items[..n], key, k);
      var i :| 0 <= i < n && key(items[..n][i]) == k && Index(items[..n], key)[k] == items[..n][i] &&
                forall j :: i < j < n ==> key(items[..n][j]) != k;
      assert items[..n][i] == items[i];
      forall j | i < j < |items|
        ensures key(items[j]) != k
      {
        if j < n {
          assert items[..n][j] == items[j];
        }
      }
    }
  }

  /** The `each_with_object` loop: one assignment per item, in list order. */
  method IndexBy<K(==,!new), T>(items: seq<T>, key: T -> K) returns (m: map<K, T>)
    ensures m == Index(items, key)
  {
    m := map[];
    var i := 0;
    while i < |items|
      invariant 0 <= i <= |items|
      invariant m == Index(items[..i], key)
    {
      assert items[..i + 1][..i] == items[..i];
      m := m[key(items[i]) := items[i]];
      i := i + 1;
    }
    assert items[..i] == items;
  }

  /** `Workspace.create`: experiments, feature flags, event types, segments and parameters by key; the rest by id. */
  function Create(experiments: seq<Experiment>, featureFlags: seq<Experiment>, buckets: seq<Bucket>,
                  eventTypes: seq<EventType>, segments: seq<Segment>, containers: seq<Container>,
                  parameterConfigurations: seq<ParameterConfiguration>,
                  remoteConfigParameters: seq<RemoteConfigParameter>): Workspace
  {
    Workspace(
      Index(experiments, (e: Experiment) => e.key),
      Index(featureFlags, (e: Experiment) => e.key),
      Index(buckets, (b: Bucket) => b.id),
      Index(eventTypes, (e: EventType) => e.key),
      Index(segments, (s: Segment) => s.key),
      Index(containers, (c: Container) => c.id),
      Index(parameterConfigurations, (p: ParameterConfiguration) => p.id),
      Index(remoteConfigParameters, (p: RemoteConfigParameter) => p.key))
  }

  /** `Workspace.create`, filling each hash with the `each_with_object` loop. */
  method CreateWorkspace(experiments: seq<Experiment>, featureFlags: seq<Experiment>, buckets: seq<Bucket>,
                         eventTypes: seq<EventType>, segments: seq<Segment>, containers: seq<Container>,
                         parameterConfigurations: seq<ParameterConfiguration>,
                         remoteConfigParameters: seq<RemoteConfigParameter>) returns (ws: Workspace)
    ensures ws == Create(experiments, featureFlags, buckets, eventTypes, segments, containers,
                         parameterConfigurations, remoteConfigParameters)
  {
    var e := IndexBy(experiments, (e: Experiment) => e.key);
    var f := IndexBy(featureFlags, (e: Experiment) => e.key);
    var b := IndexBy(buckets, (b: Bucket) => b.id);
    var t := IndexBy(eventTypes, (e: EventType) => e.key);
    var s := IndexBy(segments, (s: Segment) => s.key);
    var c := IndexBy(containers, (c: Container) => c.id);
    var p := IndexBy(parameterConfigurations, (p: ParameterConfiguration) => p.id);
    var r := IndexBy(remoteConfigParameters, (p: RemoteConfigParameter) => p.key);
    ws := Workspace(e, f, b, t, s, c, p, r);
  }

  /**
   * Looking an experiment up in a created workspace finds the last listed
   * experiment with that key, and nothing when none has it.
   */
  lemma CreateThenGetExperiment(experiments: seq<Experiment>, ws: Workspace, experimentKey: int)
    requires ws.experiments == Index(experiments, (e: Experiment) => e.key)
    ensures GetExperimentOrNil(ws, experimentKey).None? <==>
      forall i :: 0 <= i < |experiments| ==> experiments[i].key != experimentKey
    ensures GetExperimentOrNil(ws, experimentKey).Some? ==>
      exists i :: 0 <= i < |experiments| && experiments[i] == GetExperimentOrNil(ws, experimentKey).value &&
                  experiments[i].key == experimentKey &&
                  forall j :: i < j < |experiments| ==> experiments[j].key != experimentKey
  {
    var key := (e: Experiment) => e.key;
    if experimentKey in ws.experiments {
      IndexLastWins(experiments, key, experimentKey);
    } else {
      forall i | 0 <= i < |experiments|
        ensures experiments[i].key != experimentKey
      {
        assert key(experiments[i]) == experiments[i].key;
      }
    }
  }

  // ----- from_hash: the server's document -----

  datatype TargetKeyDto = TargetKeyDto(keyType: string, name: string)
  datatype TargetMatchDto = TargetMatchDto(matchType: string, operator: string, valueType: string, values: seq<Value>)
  datatype ConditionDto = ConditionDto(key: TargetKeyDto, targetMatch: TargetMatchDto)
  datatype TargetDto = TargetDto(conditions: seq<ConditionDto>)
  datatype ActionDto = ActionDto(actionType: string, variationId: Option<int>, bucketId: Option<int>)
  datatype TargetRuleDto = TargetRuleDto(target: TargetDto, action: ActionDto)
  datatype VariationDto = VariationDto(id: int, key: string, status: string, parameterConfigurationId: Option<int>)
  datatype UserOverrideDto = UserOverrideDto(userId: string, variationId: int)
  datatype ExecutionDto = ExecutionDto(
    status: string, version: int, userOverrides: seq<UserOverrideDto>, segmentOverrides: seq<TargetRuleDto>,
    targetAudiences: seq<TargetDto>, targetRules: seq<TargetRuleDto>, defaultRule: ActionDto)
  datatype ExperimentDto = ExperimentDto(
    id: int, key: int, name: Option<string>, identifierType: string, version: int,
    variations: seq<VariationDto>, execution: ExecutionDto, containerId: Option<int>, winnerVariationId: Option<int>)
  datatype SegmentDto = SegmentDto(id: int, key: string, segmentType: string, targets: seq<TargetDto>)
  datatype ParameterDto = ParameterDto(key: string, value: Value)
  datatype ParameterConfigurationDto = ParameterConfigurationDto(id: int, parameters: seq<ParameterDto>)
  datatype RemoteConfigTargetRuleDto = RemoteConfigTargetRuleDto(
    key: string, name: string, target: TargetDto, bucketId: int, value: RemoteConfigValue)
  datatype RemoteConfigParameterDto = RemoteConfigParameterDto(
    id: int, key: string, parameterType: string, identifierType: string,
    targetRules: seq<RemoteConfigTargetRuleDto>, defaultValue: RemoteConfigValue)
  datatype WorkspaceDto = WorkspaceDto(
    experiments: seq<ExperimentDto>, featureFlags: seq<ExperimentDto>, buckets: seq<Bucket>,
    events: seq<EventType>, segments: seq<SegmentDto>, containers: seq<Container>,
    parameterConfigurations: seq<ParameterConfigurationDto>, remoteConfigParameters: seq<RemoteConfigParameterDto>)

  /** `Array#compact`: the present values, in order. */
  function Compact<T(==,!new)>(xs: seq<Option<T>>): (r: seq<T>)
    ensures |r| <= |xs|
    ensures forall x :: x in r <==> Some(x) in xs
    ensures |r| == 0 <==> forall i :: 0 <= i < |xs| ==> xs[i].None?
    ensures |xs| == 1 ==> r == if xs[0].Some? then [xs[0].value] else []
  {
    if |xs| == 0 then []
    else
      assert xs == [xs[0]] + xs[1..];
      if xs[0].Some? then [xs[0].value] + Compact(xs[1..])
      else Compact(xs[1..])
  }

  /** Each value occurs in the compacted list exactly as often as it occurs present in the original. */
  lemma {:induction false} CompactCounts<T(!new)>(xs: seq<Option<T>>)
    ensures forall x :: multiset(Compact(xs))[x] == multiset(xs)[Some(x)]
  {
    if |xs| > 0 {
      CompactCounts(xs[1..]);
      assert xs == [xs[0]] + xs[1..];
      assert multiset(xs) == multiset([xs[0]]) + multiset(xs[1..]);
      if xs[0].Some? {
        assert multiset(Compact(xs)) == multiset([xs[0].value]) + multiset(Compact(xs[1..]));
      }
    }
  }

  /** Compacting a concatenation compacts each part: the values keep their order across the seam. */
  lemma {:induction false} CompactAppend<T(!new)>(a: seq<Option<T>>, b: seq<Option<T>>)
    ensures Compact(a + b) == Compact(a) + Compact(b)
  {
    if |a| > 0 {
      assert (a + b)[1..] == a[1..] + b;
      CompactAppend(a[1..], b);
    } else {
      assert a + b == b;
    }
  }

  /** `dtos.map { |it| decode(it) }.compact`: the elements that decode, in document order. */
  function DecodeAll<S, T(==,!new)>(decode: S -> Option<T>, dtos: seq<S>): (r: seq<T>)
    ensures |r| <= |dtos|
    ensures forall x :: x in r <==> exists i :: 0 <= i < |dtos| && decode(dtos[i]) == Some(x)
    ensures |dtos| == 1 ==> r == if decode(dtos[0]).Some? then [decode(dtos[0]).value] else []
  {
    var decoded := seq(|dtos|, i requires 0 <= i < |dtos| => decode(dtos[i]));
    assert forall i :: 0 <= i < |dtos| ==> decoded[i] == decode(dtos[i]);
    assert forall x :: Some(x) in decoded <==> exists i :: 0 <= i < |dtos| && decode(dtos[i]) == Some(x);
    Compact(decoded)
  }

  /** Decoding a concatenation decodes each part, in order. */
  lemma DecodeAllAppend<S, T(!new)>(decode: S -> Option<T>, a: seq<S>, b: seq<S>)
    ensures DecodeAll(decode, a + b) == DecodeAll(decode, a) + DecodeAll(decode, b)
  {
    var da := seq(|a|, i requires 0 <= i < |a| => decode(a[i]));
    var db := seq(|b|, i requires 0 <= i < |b| => decode(b[i]));
    assert seq(|a + b|, i requires 0 <= i < |a + b| => decode((a + b)[i])) == da + db;
    CompactAppend(da, db);
  }

  /** `target_key_or_nil`: nil for an unknown key type. */
  function TargetKeyOrNil(dto: TargetKeyDto): (r: Option<TargetKey>)
    ensures r.Some? <==> TargetKeyTypes.FromOrNil(dto.keyType).Some?
    ensures r.Some? ==> r.value.name == dto.name && Some(r.value.keyType) == TargetKeyTypes.FromOrNil(dto.keyType)
  {
    var keyType := TargetKeyTypes.FromOrNil(dto.keyType);
    if keyType.None? then None else Some(TargetKey(keyType.value, dto.name))
  }

  /** `target_match_or_nil`: nil for an unknown match type, operator or value type. */
  function TargetMatchOrNil(dto: TargetMatchDto): (r: Option<TargetMatch>)
    ensures r.Some? <==>
      TargetMatchTypes.FromOrNil(dto.matchType).Some? &&
      TargetOperators.FromOrNil(dto.operator).Some? &&
      ValueTypes.FromOrNil(dto.valueType).Some?
    ensures r.Some? ==> r.value.values == dto.values
    ensures r.Some? ==>
      && Some(r.value.matchType) == TargetMatchTypes.FromOrNil(dto.matchType)
      && Some(r.value.operator) == TargetOperators.FromOrNil(dto.operator)
      && Some(r.value.valueType) == ValueTypes.FromOrNil(dto.valueType)
  {
    var matchType := TargetMatchTypes.FromOrNil(dto.matchType);
    if matchType.None? then None
    else
      var operator := TargetOperators.FromOrNil(dto.operator);
      if operator.None? then None
      else
        var valueType := ValueTypes.FromOrNil(dto.valueType);
        if valueType.None? then None
        else Some(TargetMatch(matchType.value, operator.value, valueType.value, dto.values))
  }

  /** `condition_or_nil`: nil when any part is unknown or the key type is not allowed for this kind of target. */
  function ConditionOrNil(dto: ConditionDto, targetingType: TargetingType): (r: Option<TargetCondition>)
    ensures r.Some? <==>
      TargetKeyOrNil(dto.key).Some? &&
      Supports(targetingType, TargetKeyOrNil(dto.key).value.keyType) &&
      TargetMatchOrNil(dto.targetMatch).Some?
    ensures r.Some? ==> Supports(targetingType, r.value.key.keyType)
    ensures r.Some? ==> Some(r.value.key) == TargetKeyOrNil(dto.key) && Some(r.value.targetMatch) == TargetMatchOrNil(dto.targetMatch)
  {
    var key := TargetKeyOrNil(dto.key);
    if key.None? then None
    else if !Supports(targetingType, key.value.keyType) then None
    else
      var targetMatch := TargetMatchOrNil(dto.targetMatch);
      if targetMatch.None? then None
      else Some(TargetCondition(key.value, targetMatch.value))
  }

  /** A target of this kind: at least one condition, every key type allowed. */
  predicate TargetSupports(target: Target, targetingType: TargetingType)
  {
    |target.conditions| > 0 &&
    forall c :: c in target.conditions ==> Supports(targetingType, c.key.keyType)
  }

  /** The conditions of a target that decode, in document order. */
  function Conditions(dtos: seq<ConditionDto>, targetingType: TargetingType): (r: seq<TargetCondition>)
    ensures forall c :: c in r ==> Supports(targetingType, c.key.keyType)
    ensures |r| == 0 <==> forall i :: 0 <= i < |dtos| ==> ConditionOrNil(dtos[i], targetingType).None?
    ensures |dtos| == 1 ==> r == if ConditionOrNil(dtos[0], targetingType).Some? then [ConditionOrNil(dtos[0], targetingType).value] else []
  {
    DecodeAll(dto => ConditionOrNil(dto, targetingType), dtos)
  }

  /** Decoding the conditions of a concatenation decodes each part, in order. */
  lemma ConditionsAppend(a: seq<ConditionDto>, b: seq<ConditionDto>, targetingType: TargetingType)
    ensures Conditions(a + b, targetingType) == Conditions(a, targetingType) + Conditions(b, targetingType)
  {
    DecodeAllAppend(dto => ConditionOrNil(dto, targetingType), a, b);
  }

  /** `target_or_nil`: the surviving conditions; nil, not an always-matching target, when none survives. */
  function TargetOrNil(dto: TargetDto, targetingType: TargetingType): (r: Option<Target>)
    ensures r.None? <==> forall i :: 0 <= i < |dto.conditions| ==> ConditionOrNil(dto.conditions[i], targetingType).None?
    ensures r.Some? ==> TargetSupports(r.value, targetingType)
    ensures r.Some? ==> r.value.conditions == Conditions(dto.conditions, targetingType)
  {
    var conditions := Conditions(dto.conditions, targetingType);
    if |conditions| == 0 then None else Some(Target(conditions))
  }

  /** `action_or_nil`: nil for an unknown action type. */
  function ActionOrNil(dto: ActionDto): (r: Option<Action>)
    ensures r.Some? <==> ActionTypes.FromOrNil(dto.actionType).Some?
    ensures r.Some? ==> r.value.variationId == dto.variationId && r.value.bucketId == dto.bucketId
    ensures r.Some? ==> Some(r.value.actionType) == ActionTypes.FromOrNil(dto.actionType)
  {
    var actionType := ActionTypes.FromOrNil(dto.actionType);
    if actionType.None? then None else Some(Action(actionType.value, dto.variationId, dto.bucketId))
  }

  /** `target_rule_or_nil`: nil when the target or the action does not decode. */
  function TargetRuleOrNil(dto: TargetRuleDto, targetingType: TargetingType): (r: Option<TargetRule>)
    ensures r.Some? <==> TargetOrNil(dto.target, targetingType).Some? && ActionOrNil(dto.action).Some?
    ensures r.Some? ==> TargetSupports(r.value.target, targetingType)
    ensures r.Some? ==> Some(r.value.target) == TargetOrNil(dto.target, targetingType) && Some(r.value.action) == ActionOrNil(dto.action)
  {
    var target := TargetOrNil(dto.target, targetingType);
    if target.None? then None
    else
      var action := ActionOrNil(dto.action);
      if action.None? then None else Some(TargetRule(target.value, action.value))
  }

  /** `variation`: dropped exactly when the status is `'DROPPED'`. */
  function VariationOf(dto: VariationDto): (r: Variation)
    ensures r.isDropped <==> dto.status == "DROPPED"
    ensures r.id == dto.id && r.key == dto.key && r.parameterConfigurationId == dto.parameterConfigurationId
  {
    Variation(dto.id, dto.key, dto.status == "DROPPED", dto.parameterConfigurationId)
  }

  /** `Hash[pairs]` of user overrides: user id to variation id, a later pair overwriting. */
  function UserOverrides(dtos: seq<UserOverrideDto>): (r: map<string, int>)
    ensures forall u :: u in r <==> exists i :: 0 <= i < |dtos| && dtos[i].userId == u
    ensures |dtos| > 0 ==> r[dtos[|dtos| - 1].userId] == dtos[|dtos| - 1].variationId
  {
    if |dtos| == 0 then map[]
    else
      var last := dtos[|dtos| - 1];
      var rest := UserOverrides(dtos[..|dtos| - 1]);
      assert forall i :: 0 <= i < |dtos| - 1 ==> dtos[..|dtos| - 1][i] == dtos[i];
      rest[last.userId := last.variationId]
  }

  /** The position of the last pair for user `u`, or -1 when there is none. */
  function LastUserOverrideIndex(dtos: seq<UserOverrideDto>, u: string): (i: int)
    ensures -1 <= i < |dtos|
    ensures i >= 0 ==> dtos[i].userId == u
    ensures forall j :: i < j < |dtos| ==> dtos[j].userId != u
  {
    if |dtos| == 0 then -1
    else if dtos[|dtos| - 1].userId == u then |dtos| - 1
    else LastUserOverrideIndex(dtos[..|dtos| - 1], u)
  }

  /** An overridden user maps to the variation of their last pair. */
  lemma {:induction false} UserOverridesAtLastIndex(dtos: seq<UserOverrideDto>, u: string)
    requires u in UserOverrides(dtos)
    ensures LastUserOverrideIndex(dtos, u) >= 0
    ensures UserOverrides(dtos)[u] == dtos[LastUserOverrideIndex(dtos, u)].variationId
  {
    var n := |dtos| - 1;
    if dtos[n].userId != u {
      UserOverridesAtLastIndex(dtos[..n], u);
    }
  }

  /**
   * User overrides keep, for each user id, the variation of the LAST pair
   * naming it: `Hash[pairs]` lets a later pair overwrite an earlier one.
   */
  lemma UserOverridesLastWins(dtos: seq<UserOverrideDto>, u: string)
    requires u in UserOverrides(dtos)
    ensures exists i :: 0 <= i < |dtos| && dtos[i].userId == u && UserOverrides(dtos)[u] == dtos[i].variationId &&
                        forall j :: i < j < |dtos| ==> dtos[j].userId != u
  {
    UserOverridesAtLastIndex(dtos, u);
    var i := LastUserOverrideIndex(dtos, u);
    assert dtos[i].userId == u && UserOverrides(dtos)[u] == dtos[i].variationId;
  }


  /** Conditions drop out, then targets with none left, then rules whose target or action is gone. */
  function TargetRules(dtos: seq<TargetRuleDto>, targetingType: TargetingType): (r: seq<TargetRule>)
    ensures forall rule :: rule in r ==> TargetSupports(rule.target, targetingType)
    ensures |r| <= |dtos|
    ensures forall rule :: rule in r <==> exists i :: 0 <= i < |dtos| && TargetRuleOrNil(dtos[i], targetingType) == Some(rule)
    ensures |dtos| == 1 ==> r == if TargetRuleOrNil(dtos[0], targetingType).Some? then [TargetRuleOrNil(dtos[0], targetingType).value] else []
  {
    DecodeAll(dto => TargetRuleOrNil(dto, targetingType), dtos)
  }

  /** Decoding the rules of a concatenation decodes each part, in order. */
  lemma TargetRulesAppend(a: seq<TargetRuleDto>, b: seq<TargetRuleDto>, targetingType: TargetingType)
    ensures TargetRules(a + b, targetingType) == TargetRules(a, targetingType) + TargetRules(b, targetingType)
  {
    DecodeAllAppend(dto => TargetRuleOrNil(dto, targetingType), a, b);
  }

  /** Targets that lose every condition drop out; the others keep their order. */
  function Targets(dtos: seq<TargetDto>, targetingType: TargetingType): (r: seq<Target>)
    ensures forall t :: t in r ==> TargetSupports(t, targetingType)
    ensures |r| <= |dtos|
    ensures forall t :: t in r <==> exists i :: 0 <= i < |dtos| && TargetOrNil(dtos[i], targetingType) == Some(t)
    ensures |dtos| == 1 ==> r == if TargetOrNil(dtos[0], targetingType).Some? then [TargetOrNil(dtos[0], targetingType).value] else []
  {
    DecodeAll(dto => TargetOrNil(dto, targetingType), dtos)
  }

  /** Decoding the targets of a concatenation decodes each part, in order. */
  lemma TargetsAppend(a: seq<TargetDto>, b: seq<TargetDto>, targetingType: TargetingType)
    ensures Targets(a + b, targetingType) == Targets(a, targetingType) + Targets(b, targetingType)
  {
    DecodeAllAppend(dto => TargetOrNil(dto, targetingType), a, b);
  }

  /**
   * `experiment`: nil for an unknown status or default-rule type;
   * segment overrides use IDENTIFIER targeting, audiences and target rules
   * PROPERTY targeting.
   */
  function ExperimentOrNil(dto: ExperimentDto, experimentType: ExperimentTypes.ExperimentType): (r: Option<Experiment>)
    ensures r.Some? <==>
      ExperimentStatuses.FromOrNil(dto.execution.status).Some? && ActionOrNil(dto.execution.defaultRule).Some?
    ensures r.Some? ==> r.value.experimentType == experimentType && r.value.id == dto.id && r.value.key == dto.key
    ensures r.Some? ==> |r.value.variations| == |dto.variations|
    ensures r.Some? ==>
      && Some(r.value.status) == ExperimentStatuses.FromOrNil(dto.execution.status)
      && Some(r.value.defaultRule) == ActionOrNil(dto.execution.defaultRule)
      && r.value.name == dto.name && r.value.identifierType == dto.identifierType
      && r.value.version == dto.version && r.value.executionVersion == dto.execution.version
      && r.value.containerId == dto.containerId && r.value.winnerVariationId == dto.winnerVariationId
      && (forall i :: 0 <= i < |dto.variations| ==> r.value.variations[i] == VariationOf(dto.variations[i]))
      && r.value.userOverrides == UserOverrides(dto.execution.userOverrides)
      && r.value.segmentOverrides == TargetRules(dto.execution.segmentOverrides, IDENTIFIER)
      && r.value.targetAudiences == Targets(dto.execution.targetAudiences, PROPERTY)
      && r.value.targetRules == TargetRules(dto.execution.targetRules, PROPERTY)
  {
    var status := ExperimentStatuses.FromOrNil(dto.execution.status);
    if status.None? then None
    else
      var defaultRule := ActionOrNil(dto.execution.defaultRule);
      if defaultRule.None? then None
      else Some(Experiment(
        dto.id, dto.key, dto.name, experimentType, dto.identifierType, status.value,
        dto.version, dto.execution.version,
        seq(|dto.variations|, i requires 0 <= i < |dto.variations| => VariationOf(dto.variations[i])),
        UserOverrides(dto.execution.userOverrides),
        TargetRules(dto.execution.segmentOverrides, IDENTIFIER),
        Targets(dto.execution.targetAudiences, PROPERTY),
        TargetRules(dto.execution.targetRules, PROPERTY),
        defaultRule.value, dto.containerId, dto.winnerVariationId))
  }

  /** `segment_or_nil`: nil for an unknown segment type; its targets use SEGMENT targeting. */
  function SegmentOrNil(dto: SegmentDto): (r: Option<Segment>)
    ensures r.Some? <==> SegmentTypes.FromOrNil(dto.segmentType).Some?
    ensures r.Some? ==> r.value.key == dto.key && forall t :: t in r.value.targets ==> TargetSupports(t, SEGMENT_TARGETING)
    ensures r.Some? ==>
      && r.value.id == dto.id && Some(r.value.segmentType) == SegmentTypes.FromOrNil(dto.segmentType)
      && r.value.targets == Targets(dto.targets, SEGMENT_TARGETING)
  {
    var segmentType := SegmentTypes.FromOrNil(dto.segmentType);
    if segmentType.None? then None
    else Some(Segment(dto.id, dto.key, segmentType.value, Targets(dto.targets, SEGMENT_TARGETING)))
  }

  /** `Hash[pairs]` of parameters: a later pair overwriting. */
  function Parameters(dtos: seq<ParameterDto>): (r: map<string, Value>)
    ensures forall k :: k in r <==> exists i :: 0 <= i < |dtos| && dtos[i].key == k
    ensures |dtos| > 0 ==> r[dtos[|dtos| - 1].key] == dtos[|dtos| - 1].value
  {
    if |dtos| == 0 then map[]
    else
      var last := dtos[|dtos| - 1];
      var rest := Parameters(dtos[..|dtos| - 1]);
      assert forall i :: 0 <= i < |dtos| - 1 ==> dtos[..|dtos| - 1][i] == dtos[i];
      rest[last.key := last.value]
  }

  /** The position of the last pair with key `k`, or -1 when there is none. */
  function LastParameterIndex(dtos: seq<ParameterDto>, k: string): (i: int)
    ensures -1 <= i < |dtos|
    ensures i >= 0 ==> dtos[i].key == k
    ensures forall j :: i < j < |dtos| ==> dtos[j].key != k
  {
    if |dtos| == 0 then -1
    else if dtos[|dtos| - 1].key == k then |dtos| - 1
    else LastParameterIndex(dtos[..|dtos| - 1], k)
  }

  /** A key of the parameters maps to the value of its last pair. */
  lemma {:induction false} ParametersAtLastIndex(dtos: seq<ParameterDto>, k: string)
    requires k in Parameters(dtos)
    ensures LastParameterIndex(dtos, k) >= 0
    ensures Parameters(dtos)[k] == dtos[LastParameterIndex(dtos, k)].value
  {
    var n := |dtos| - 1;
    if dtos[n].key != k {
      ParametersAtLastIndex(dtos[..n], k);
    }
  }

  /** Parameters keep, for each key, the value of the LAST pair naming it. */
  lemma ParametersLastWins(dtos: seq<ParameterDto>, k: string)
    requires k in Parameters(dtos)
    ensures exists i :: 0 <= i < |dtos| && dtos[i].key == k && Parameters(dtos)[k] == dtos[i].value &&
                        forall j :: i < j < |dtos| ==> dtos[j].key != k
  {
    ParametersAtLastIndex(dtos, k);
    var i := LastParameterIndex(dtos, k);
    assert dtos[i].key == k && Parameters(dtos)[k] == dtos[i].value;
  }


  /** `v` is the value of the last pair with key `k`. */
  predicate IsLastParameter(dtos: seq<ParameterDto>, k: string, v: Value)
  {
    exists i :: 0 <= i < |dtos| && dtos[i].key == k && dtos[i].value == v && forall j :: i < j < |dtos| ==> dtos[j].key != k
  }

  /** `parameter_configuration`: the id and the parameters as a hash. */
  function ParameterConfigurationOf(dto: ParameterConfigurationDto): (r: ParameterConfiguration)
    ensures r.id == dto.id
    ensures forall k :: k in r.parameters <==> exists i :: 0 <= i < |dto.parameters| && dto.parameters[i].key == k
    ensures forall k :: k in r.parameters ==> IsLastParameter(dto.parameters, k, r.parameters[k])
  {
    var parameters := Parameters(dto.parameters);
    assert forall k :: k in parameters ==> IsLastParameter(dto.parameters, k, parameters[k]) by {
      forall k | k in parameters
        ensures IsLastParameter(dto.parameters, k, parameters[k])
      {
        ParametersLastWins(dto.parameters, k);
      }
    }
    ParameterConfiguration(dto.id, parameters)
  }

  /** `remote_config_target_rule_or_nil`: nil when the (PROPERTY) target does not decode. */
  function RemoteConfigTargetRuleOrNil(dto: RemoteConfigTargetRuleDto): (r: Option<RemoteConfigTargetRule>)
    ensures r.Some? <==> TargetOrNil(dto.target, PROPERTY).Some?
    ensures r.Some? ==> TargetSupports(r.value.target, PROPERTY)
    ensures r.Some? ==>
      && r.value.key == dto.key && r.value.name == dto.name && Some(r.value.target) == TargetOrNil(dto.target, PROPERTY)
      && r.value.bucketId == dto.bucketId && r.value.value == dto.value
  {
    var target := TargetOrNil(dto.target, PROPERTY);
    if target.None? then None
    else Some(RemoteConfigTargetRule(dto.key, dto.name, target.value, dto.bucketId, dto.value))
  }

  /** `remote_config_parameter_or_nil`: nil for an unknown value type. */
  function RemoteConfigParameterOrNil(dto: RemoteConfigParameterDto): (r: Option<RemoteConfigParameter>)
    ensures r.Some? <==> ValueTypes.FromOrNil(dto.parameterType).Some?
    ensures r.Some? ==> r.value.key == dto.key
    ensures r.Some? ==> forall rule :: rule in r.value.targetRules ==> TargetSupports(rule.target, PROPERTY)
    ensures r.Some? ==>
      && r.value.id == dto.id && Some(r.value.parameterType) == ValueTypes.FromOrNil(dto.parameterType)
      && r.value.identifierType == dto.identifierType && r.value.defaultValue == dto.defaultValue
      && r.value.targetRules == RemoteConfigTargetRules(dto.targetRules)
  {
    var parameterType := ValueTypes.FromOrNil(dto.parameterType);
    if parameterType.None? then None
    else Some(RemoteConfigParameter(
      dto.id, dto.key, parameterType.value, dto.identifierType,
      RemoteConfigTargetRules(dto.targetRules),
      dto.defaultValue))
  }

  /** The remote-config rules that decode, in document order. */
  function RemoteConfigTargetRules(dtos: seq<RemoteConfigTargetRuleDto>): (r: seq<RemoteConfigTargetRule>)
    ensures forall rule :: rule in r ==> TargetSupports(rule.target, PROPERTY)
    ensures |r| <= |dtos|
    ensures forall rule :: rule in r <==> exists i :: 0 <= i < |dtos| && RemoteConfigTargetRuleOrNil(dtos[i]) == Some(rule)
    ensures |dtos| == 1 ==> r == if RemoteConfigTargetRuleOrNil(dtos[0]).Some? then [RemoteConfigTargetRuleOrNil(dtos[0]).value] else []
  {
    DecodeAll(RemoteConfigTargetRuleOrNil, dtos)
  }

  /** Decoding the remote-config rules of a concatenation decodes each part, in order. */
  lemma RemoteConfigTargetRulesAppend(a: seq<RemoteConfigTargetRuleDto>, b: seq<RemoteConfigTargetRuleDto>)
    ensures RemoteConfigTargetRules(a + b) == RemoteConfigTargetRules(a) + RemoteConfigTargetRules(b)
  {
    DecodeAllAppend(RemoteConfigTargetRuleOrNil, a, b);
  }

  /** The decoded experiments of one list; a Failure when any of them decodes to nil (indexing that nil by key raises). */
  function DecodeExperiments(dtos: seq<ExperimentDto>, experimentType: ExperimentTypes.ExperimentType): (r: Result<seq<Experiment>>)
    ensures r.Ok? <==> forall i :: 0 <= i < |dtos| ==> ExperimentOrNil(dtos[i], experimentType).Some?
    ensures r.Ok? ==> |r.value| == |dtos|
    ensures r.Ok? ==> forall i :: 0 <= i < |dtos| ==> Some(r.value[i]) == ExperimentOrNil(dtos[i], experimentType)
  {
    var decoded := Seqs.AllSome(dtos, dto => ExperimentOrNil(dto, experimentType));
    if decoded.None? then Failure("undefined method `key' for nil") else Ok(decoded.value)
  }

  /** The segments of the document whose type is known, in document order, each with its SEGMENT targets. */
  function DecodeSegments(dtos: seq<SegmentDto>): (r: seq<Segment>)
    ensures forall s :: s in r ==> forall t :: t in s.targets ==> TargetSupports(t, SEGMENT_TARGETING)
    ensures |r| <= |dtos|
    ensures forall s :: s in r <==> exists i :: 0 <= i < |dtos| && SegmentOrNil(dtos[i]) == Some(s)
    ensures |dtos| == 1 ==> r == if SegmentOrNil(dtos[0]).Some? then [SegmentOrNil(dtos[0]).value] else []
  {
    DecodeAll(SegmentOrNil, dtos)
  }

  /** Decoding the segments of a concatenation decodes each part, in order. */
  lemma DecodeSegmentsAppend(a: seq<SegmentDto>, b: seq<SegmentDto>)
    ensures DecodeSegments(a + b) == DecodeSegments(a) + DecodeSegments(b)
  {
    DecodeAllAppend(SegmentOrNil, a, b);
  }

  /** The remote config parameters of the document whose type is known, in document order. */
  function DecodeRemoteConfigParameters(dtos: seq<RemoteConfigParameterDto>): (r: seq<RemoteConfigParameter>)
    ensures forall p :: p in r ==> forall rule :: rule in p.targetRules ==> TargetSupports(rule.target, PROPERTY)
    ensures |r| <= |dtos|
    ensures forall p :: p in r <==> exists i :: 0 <= i < |dtos| && RemoteConfigParameterOrNil(dtos[i]) == Some(p)
    ensures |dtos| == 1 ==> r == if RemoteConfigParameterOrNil(dtos[0]).Some? then [RemoteConfigParameterOrNil(dtos[0]).value] else []
  {
    DecodeAll(RemoteConfigParameterOrNil, dtos)
  }

  /** Decoding the parameters of a concatenation decodes each part, in order. */
  lemma DecodeRemoteConfigParametersAppend(a: seq<RemoteConfigParameterDto>, b: seq<RemoteConfigParameterDto>)
    ensures DecodeRemoteConfigParameters(a + b) == DecodeRemoteConfigParameters(a) + DecodeRemoteConfigParameters(b)
  {
    DecodeAllAppend(RemoteConfigParameterOrNil, a, b);
  }

  /** `parameter_configuration` over the document's list: one configuration per entry, in order. */
  function ParameterConfigurations(dtos: seq<ParameterConfigurationDto>): (r: seq<ParameterConfiguration>)
    ensures |r| == |dtos|
    ensures forall i :: 0 <= i < |dtos| ==> r[i] == ParameterConfigurationOf(dtos[i])
  {
    seq(|dtos|, i requires 0 <= i < |dtos| => ParameterConfigurationOf(dtos[i]))
  }

  /**
   * `Workspace.from_hash`. Segments and parameters with an unknown type are
   * compacted away; experiments are not, so an undecodable experiment or
   * feature flag makes indexing raise.
   */
  function FromHash(dto: WorkspaceDto): (r: Result<Workspace>)
    ensures r.Ok? <==>
      DecodeExperiments(dto.experiments, ExperimentTypes.AB_TEST).Ok? &&
      DecodeExperiments(dto.featureFlags, ExperimentTypes.FEATURE_FLAG).Ok?
    ensures r.Failure? ==> r.error == "undefined method `key' for nil"
    ensures r.Ok? ==> r.value == Create(
      DecodeExperiments(dto.experiments, ExperimentTypes.AB_TEST).value,
      DecodeExperiments(dto.featureFlags, ExperimentTypes.FEATURE_FLAG).value,
      dto.buckets, dto.events, DecodeSegments(dto.segments), dto.containers,
      ParameterConfigurations(dto.parameterConfigurations),
      DecodeRemoteConfigParameters(dto.remoteConfigParameters))
  {
    var experiments := DecodeExperiments(dto.experiments, ExperimentTypes.AB_TEST);
    var featureFlags := DecodeExperiments(dto.featureFlags, ExperimentTypes.FEATURE_FLAG);
    if experiments.Failure? then Failure(experiments.error)
    else if featureFlags.Failure? then Failure(featureFlags.error)
    else Ok(Create(
      experiments.value,
      featureFlags.value,
      dto.buckets,
      dto.events,
      DecodeSegments(dto.segments),
      dto.containers,
      ParameterConfigurations(dto.parameterConfigurations),
      DecodeRemoteConfigParameters(dto.remoteConfigParameters)))
  }

  /** Every target in an experiment is of the kind its place allows. */
  predicate ExperimentWellTargeted(e: Experiment)
  {
    && (forall rule :: rule in e.segmentOverrides ==> TargetSupports(rule.target, IDENTIFIER))
    && (forall t :: t in e.targetAudiences ==> TargetSupports(t, PROPERTY))
    && (forall rule :: rule in e.targetRules ==> TargetSupports(rule.target, PROPERTY))
  }

  /**
   * The targeting discipline of a decoded workspace: segment overrides only
   * name segments, segments never name segments or experiments, and no
   * target is empty.
   */
  predicate WellTargeted(ws: Workspace)
  {
    && (forall k :: k in ws.experiments ==> ExperimentWellTargeted(ws.experiments[k]))
    && (forall k :: k in ws.featureFlags ==> ExperimentWellTargeted(ws.featureFlags[k]))
    && (forall k :: k in ws.segments ==> forall t :: t in ws.segments[k].targets ==> TargetSupports(t, SEGMENT_TARGETING))
    && (forall k :: k in ws.remoteConfigParameters ==>
          forall rule :: rule in ws.remoteConfigParameters[k].targetRules ==> TargetSupports(rule.target, PROPERTY))
  }

  /** Every value of an index is one of the indexed items. */
  lemma IndexValues<K(!new), T>(items: seq<T>, key: T -> K)
    ensures forall k :: k in Index(items, key) ==> Index(items, key)[k] in items
  {
    forall k | k in Index(items, key)
      ensures Index(items, key)[k] in items
    {
      IndexLastWins(items, key, k);
    }
  }

  lemma DecodedExperimentsWellTargeted(dtos: seq<ExperimentDto>, experimentType: ExperimentTypes.ExperimentType)
    requires DecodeExperiments(dtos, experimentType).Ok?
    ensures forall e :: e in DecodeExperiments(dtos, experimentType).value ==> ExperimentWellTargeted(e)
  {
    var es := DecodeExperiments(dtos, experimentType).value;
    forall e | e in es
      ensures ExperimentWellTargeted(e)
    {
      var i :| 0 <= i < |es| && es[i] == e;
      assert Some(e) == ExperimentOrNil(dtos[i], experimentType);
    }
  }

  /** Whatever the document holds, a decoded workspace is well targeted. */
  lemma FromHashWellTargeted(dto: WorkspaceDto)
    requires FromHash(dto).Ok?
    ensures WellTargeted(FromHash(dto).value)
  {
    var ws := FromHash(dto).value;
    var experiments := DecodeExperiments(dto.experiments, ExperimentTypes.AB_TEST).value;
    var featureFlags := DecodeExperiments(dto.featureFlags, ExperimentTypes.FEATURE_FLAG).value;
    var segments := DecodeSegments(dto.segments);
    var parameters := DecodeRemoteConfigParameters(dto.remoteConfigParameters);
    assert ws.experiments == Index(experiments, (e: Experiment) => e.key);
    assert ws.featureFlags == Index(featureFlags, (e: Experiment) => e.key);
    assert ws.segments == Index(segments, (s: Segment) => s.key);
    assert ws.remoteConfigParameters == Index(parameters, (p: RemoteConfigParameter) => p.key);
    DecodedExperimentsWellTargeted(dto.experiments, ExperimentTypes.AB_TEST);
    DecodedExperimentsWellTargeted(dto.featureFlags, ExperimentTypes.FEATURE_FLAG);
    IndexValues(experiments, (e: Experiment) => e.key);
    IndexValues(featureFlags, (e: Experiment) => e.key);
    IndexValues(segments, (s: Segment) => s.key);
    IndexValues(parameters, (p: RemoteConfigParameter) => p.key);
  }
}
