/**
 * The workspace's entities: buckets and slots, variations, actions,
 * targets, experiments, containers, segments, event types, parameter
 * configurations and remote config parameters.
 */
module Model {
  import opened Wrappers
  import opened RubyValues
  import opened Seqs
  import opened ValueTypes
  import opened TargetKeyTypes
  import opened TargetMatchTypes
  import opened TargetOperators
  import opened ExperimentTypes
  import opened ExperimentStatuses
  import opened ActionTypes
  import opened SegmentTypes

  // ----- bucket.rb -----

  datatype Slot = Slot(startInclusive: int, endExclusive: int, variationId: int)

  /** `Slot#contains?`: the half-open range [start, end) holds the slot number. */
  predicate SlotContains(slot: Slot, slotNumber: int)
  {
    slot.startInclusive <= slotNumber < slot.endExclusive
  }

  datatype Bucket = Bucket(id: int, seed: int, slotSize: int, slots: seq<Slot>)

  /** `Bucket#get_slot_or_nil`: the first slot, in list order, holding the slot number. */
  function GetSlotOrNil(bucket: Bucket, slotNumber: int): (r: Option<Slot>)
    ensures r.None? <==> forall i :: 0 <= i < |bucket.slots| ==> !SlotContains(bucket.slots[i], slotNumber)
    ensures r.Some? ==> r.value in bucket.slots && SlotContains(r.value, slotNumber)
    ensures r.Some? ==> exists i :: 0 <= i < |bucket.slots| && bucket.slots[i] == r.value &&
                                    forall j :: 0 <= j < i ==> !SlotContains(bucket.slots[j], slotNumber)
  {
    Find(bucket.slots, (s: Slot) => SlotContains(s, slotNumber))
  }

  /** Slots that never overlap. */
  predicate DisjointSlots(slots: seq<Slot>)
  {
    forall i, j :: 0 <= i < j < |slots| ==>
      slots[i].endExclusive <= slots[j].startInclusive || slots[j].endExclusive <= slots[i].startInclusive
  }

  /** With disjoint slots the lookup does not depend on their order: it is the one slot holding the number. */
  lemma GetSlotOfDisjoint(bucket: Bucket, slotNumber: int, k: int)
    requires DisjointSlots(bucket.slots)
    requires 0 <= k < |bucket.slots| && SlotContains(bucket.slots[k], slotNumber)
    ensures GetSlotOrNil(bucket, slotNumber) == Some(bucket.slots[k])
  {
    var r := GetSlotOrNil(bucket, slotNumber);
    var i :| 0 <= i < |bucket.slots| && bucket.slots[i] == r.value &&
             forall j :: 0 <= j < i ==> !SlotContains(bucket.slots[j], slotNumber);
    assert SlotContains(bucket.slots[i], slotNumber);
    assert i == k;
  }

  // ----- variation.rb, action.rb -----

  datatype Variation = Variation(id: int, key: string, isDropped: bool, parameterConfigurationId: Option<int>)

  datatype Action = Action(actionType: ActionType, variationId: Option<int>, bucketId: Option<int>)

  // ----- target.rb, target_rule.rb -----

  datatype TargetKey = TargetKey(keyType: TargetKeyType, name: string)

  datatype TargetMatch = TargetMatch(matchType: TargetMatchType, operator: TargetOperator,
                                     valueType: ValueType, values: seq<Value>)

  datatype TargetCondition = TargetCondition(key: TargetKey, targetMatch: TargetMatch)

  datatype Target = Target(conditions: seq<TargetCondition>)

  datatype TargetRule = TargetRule(target: Target, action: Action)

  // ----- experiment.rb -----

  datatype Experiment = Experiment(
    id: int,
    key: int,
    name: Option<string>,  // nil when the document carries none
    experimentType: ExperimentType,
    identifierType: string,
    status: ExperimentStatus,
    version: int,
    executionVersion: int,
    variations: seq<Variation>,
    userOverrides: map<string, int>,
    segmentOverrides: seq<TargetRule>,
    targetAudiences: seq<Target>,
    targetRules: seq<TargetRule>,
    defaultRule: Action,
    containerId: Option<int>,
    winnerVariationId: Option<int>)

  /** `Experiment#get_variation_or_nil_by_id`: the first variation with that id. */
  function GetVariationOrNilById(experiment: Experiment, id: int): (r: Option<Variation>)
    ensures r.None? <==> forall i :: 0 <= i < |experiment.variations| ==> experiment.variations[i].id != id
    ensures r.Some? ==> r.value in experiment.variations && r.value.id == id
    ensures r.Some? ==> exists i :: 0 <= i < |experiment.variations| && experiment.variations[i] == r.value &&
                                    forall j :: 0 <= j < i ==> experiment.variations[j].id != id
  {
    var p := (v: Variation) => v.id == id;
    var i := IndexOfFirst(experiment.variations, p);
    assert forall j :: 0 <= j < i ==> !p(experiment.variations[j]);
    Find(experiment.variations, p)
  }

  /** `Experiment#get_variation_or_nil_by_key`: the first variation with that key. */
  function GetVariationOrNilByKey(experiment: Experiment, key: string): (r: Option<Variation>)
    ensures r.None? <==> forall i :: 0 <= i < |experiment.variations| ==> experiment.variations[i].key != key
    ensures r.Some? ==> r.value in experiment.variations && r.value.key == key
    ensures r.Some? ==> exists i :: 0 <= i < |experiment.variations| && experiment.variations[i] == r.value &&
                                    forall j :: 0 <= j < i ==> experiment.variations[j].key != key
  {
    var p := (v: Variation) => v.key == key;
    var i := IndexOfFirst(experiment.variations, p);
    assert forall j :: 0 <= j < i ==> !p(experiment.variations[j]);
    Find(experiment.variations, p)
  }

  /** `Experiment#winner_variation_or_nil`: nil without a winner id, else the variation with that id. */
  function WinnerVariationOrNil(experiment: Experiment): (r: Option<Variation>)
    ensures experiment.winnerVariationId.None? ==> r.None?
    ensures r.Some? ==> r.value in experiment.variations && Some(r.value.id) == experiment.winnerVariationId
    ensures experiment.winnerVariationId.Some? ==> r == GetVariationOrNilById(experiment, experiment.winnerVariationId.value)
  {
    if experiment.winnerVariationId.None? then None
    else GetVariationOrNilById(experiment, experiment.winnerVariationId.value)
  }

  // ----- container.rb -----

  datatype ContainerGroup = ContainerGroup(id: int, experiments: seq<int>)

  datatype Container = Container(id: int, bucketId: int, groups: seq<ContainerGroup>)

  /** `Container#get_group_or_nil`: the first group with that id. */
  function GetGroupOrNil(container: Container, groupId: int): (r: Option<ContainerGroup>)
    ensures r.None? <==> forall i :: 0 <= i < |container.groups| ==> container.groups[i].id != groupId
    ensures r.Some? ==> r.value in container.groups && r.value.id == groupId
    ensures r.Some? ==> exists i :: 0 <= i < |container.groups| && container.groups[i] == r.value &&
                                    forall j :: 0 <= j < i ==> container.groups[j].id != groupId
  {
    var p := (g: ContainerGroup) => g.id == groupId;
    var i := IndexOfFirst(container.groups, p);
    assert forall j :: 0 <= j < i ==> !p(container.groups[j]);
    Find(container.groups, p)
  }

  // ----- segment.rb, event_type.rb, parameter_configuration.rb, remote_config_parameter.rb -----

  datatype Segment = Segment(id: int, key: string, segmentType: SegmentType, targets: seq<Target>)

  datatype EventType = EventType(id: int, key: string)

  datatype ParameterConfiguration = ParameterConfiguration(id: int, parameters: map<string, Value>)

  datatype RemoteConfigValue = RemoteConfigValue(id: int, rawValue: Value)

  datatype RemoteConfigTargetRule = RemoteConfigTargetRule(
    key: string, name: string, target: Target, bucketId: int, value: RemoteConfigValue)

  datatype RemoteConfigParameter = RemoteConfigParameter(
    id: int,
    key: string,
    parameterType: ValueType,
    identifierType: string,
    targetRules: seq<RemoteConfigTargetRule>,
    defaultValue: RemoteConfigValue)
}

/** `TargetingType`: which condition key types each kind of target may use. */
module Targeting {
  import opened TargetKeyTypes

  datatype TargetingType = IDENTIFIER | PROPERTY | SEGMENT_TARGETING

  function SupportedKeyTypes(t: TargetingType): seq<TargetKeyType>
  {
    match t
    case IDENTIFIER => [SEGMENT]
    case PROPERTY => [SEGMENT, USER_PROPERTY, HACKLE_PROPERTY, AB_TEST, FEATURE_FLAG]
    case SEGMENT_TARGETING => [USER_ID, USER_PROPERTY, HACKLE_PROPERTY]
  }

  /** `TargetingType#supports?` */
  predicate Supports(t: TargetingType, keyType: TargetKeyType)
  {
    keyType in SupportedKeyTypes(t)
  }

  /**
   * Segment overrides only target segments; audiences and rules never name
   * a user id directly; segments never refer to other segments or to
   * experiments, so segment evaluation cannot recurse.
   */
  lemma SupportsTable(keyType: TargetKeyType)
    ensures Supports(IDENTIFIER, keyType) <==> keyType == SEGMENT
    ensures Supports(PROPERTY, keyType) <==> keyType != USER_ID
    ensures Supports(SEGMENT_TARGETING, keyType) <==> keyType in {USER_ID, USER_PROPERTY, HACKLE_PROPERTY}
  {
  }
}
