/**
 * User events: the records the SDK reports (exposures, tracks and
 * remote-config decisions), `UserEventFactory`, which turns one evaluation
 * and the evaluations nested in it into events, and `UserEventSerializer`,
 * which splits a batch of events into the three lists of the payload.
 */
module UserEvents {
  import opened Wrappers
  import opened RubyValues
  import opened OrderedMaps
  import opened Model
  import opened Users
  import opened Evaluators
  import opened DecisionReasons
  import PropertiesBuilders
  import ExperimentTypes
  import ValueTypes
  import Events
  import Seqs

  /**
   * `ExposureEvent`, `TrackEvent` and `RemoteConfigEvent`. A track event's
   * type is the workspace's event type or the fallback `id 0` type that
   * carries the event's own key, whatever that key is.
   */
  datatype UserEvent =
    | ExposureEvent(timestamp: int, user: HackleUser, experiment: Experiment, variationId: Option<int>,
                    variationKey: string, decisionReason: DecisionReason, properties: seq<(string, Value)>)
    | TrackEvent(timestamp: int, user: HackleUser, eventTypeId: int, eventTypeKey: Value, event: Events.Event)
    | RemoteConfigEvent(timestamp: int, user: HackleUser, parameter: RemoteConfigParameter, valueId: Option<int>,
                        decisionReason: DecisionReason, properties: seq<(string, Value)>)

  // ----- user_event_factory.rb -----

  const TARGETING_ROOT_TYPE: string := "$targetingRootType"
  const TARGETING_ROOT_ID: string := "$targetingRootId"
  const PARAMETER_CONFIGURATION_ID: string := "$parameterConfigurationId"
  const EXPERIMENT_VERSION: string := "$experiment_version"
  const EXECUTION_VERSION: string := "$execution_version"

  /** An event reports an evaluation: the same experiment (or parameter), decision and reason. */
  predicate Describes(event: UserEvent, evaluation: Evaluation)
  {
    match evaluation
    case ExperimentEvaluation(reason, _, experiment, variationId, variationKey, _) =>
      event.ExposureEvent? && event.experiment == experiment && event.variationId == variationId &&
      event.variationKey == variationKey && event.decisionReason == reason
    case RemoteConfigEvaluation(reason, _, parameter, valueId, _, _) =>
      event.RemoteConfigEvent? && event.parameter == parameter && event.valueId == valueId &&
      event.decisionReason == reason
  }

  /** The properties an event about a nested evaluation starts with: the key of the request it was nested in. */
  function TargetingRootProperties(request: Request): seq<(string, Value)>
  {
    var first := PropertiesBuilders.AddProperty([], Str(TARGETING_ROOT_TYPE), Str(request.key.keyType));
    PropertiesBuilders.AddProperty(first, Str(TARGETING_ROOT_ID), Num(request.key.id))
  }

  /** The targeting-root hash holds the root's key type and id, and nothing else. */
  lemma TargetingRootPropertiesEffect(request: Request)
    ensures var r := TargetingRootProperties(request);
      && PropertiesBuilders.PropertiesValid(r) && |r| <= 2
      && Get(r, TARGETING_ROOT_TYPE) == Some(Str(request.key.keyType))
      && Get(r, TARGETING_ROOT_ID) == Some(Num(request.key.id))
      && forall k :: k != TARGETING_ROOT_TYPE && k != TARGETING_ROOT_ID ==> Get(r, k).None?
  {
    var first := PropertiesBuilders.AddProperty([], Str(TARGETING_ROOT_TYPE), Str(request.key.keyType));
    PropertiesBuilders.AddPropertyEffect([], Str(TARGETING_ROOT_TYPE), Str(request.key.keyType), TARGETING_ROOT_ID);
    AddNumber(first, TARGETING_ROOT_ID, request.key.id);
    forall k | k != TARGETING_ROOT_TYPE
      ensures Get(first, k).None?
    {
      PropertiesBuilders.AddPropertyEffect([], Str(TARGETING_ROOT_TYPE), Str(request.key.keyType), k);
    }
  }

  /** `config&.id`: nil without a configuration. */
  function ConfigurationIdOrNil(evaluation: Evaluation): Value
    requires evaluation.ExperimentEvaluation?
  {
    if evaluation.config.Some? then Num(evaluation.config.value.id) else Null
  }

  /** The properties of an exposure: the configuration id, then the experiment's two versions. */
  function ExposureProperties(base: seq<(string, Value)>, evaluation: Evaluation): seq<(string, Value)>
    requires evaluation.ExperimentEvaluation?
  {
    var withConfig := PropertiesBuilders.AddProperty(base, Str(PARAMETER_CONFIGURATION_ID), ConfigurationIdOrNil(evaluation));
    var withVersion := PropertiesBuilders.AddProperty(withConfig, Str(EXPERIMENT_VERSION), Num(evaluation.experiment.version));
    PropertiesBuilders.AddProperty(withVersion, Str(EXECUTION_VERSION), Num(evaluation.experiment.executionVersion))
  }

  /** `create_internal`: an exposure for an experiment evaluation, a remote-config event for a parameter evaluation. */
  function EventOf(request: Request, evaluation: Evaluation, timestamp: int, base: seq<(string, Value)>): (r: UserEvent)
    ensures Describes(r, evaluation) && r.timestamp == timestamp && r.user == request.user
  {
    match evaluation
    case ExperimentEvaluation(reason, _, experiment, variationId, variationKey, _) =>
      ExposureEvent(timestamp, request.user, experiment, variationId, variationKey, reason,
                    ExposureProperties(base, evaluation))
    case RemoteConfigEvaluation(reason, _, parameter, valueId, _, properties) =>
      RemoteConfigEvent(timestamp, request.user, parameter, valueId, reason,
                        PropertiesBuilders.AddAllProperties(base, PropertiesBuilders.ToHash(properties).entries))
  }

  /** The event for one nested evaluation: `create_internal` from the targeting-root properties. */
  function TargetEventOf(request: Request, timestamp: int): Evaluation -> UserEvent
  {
    target => EventOf(request, target, timestamp, TargetingRootProperties(request))
  }

  /** The events for the nested evaluations, in order. */
  function TargetEventsOf(request: Request, targets: seq<Evaluation>, timestamp: int): seq<UserEvent>
  {
    Seqs.Map(TargetEventOf(request, timestamp), targets)
  }

  /** `UserEventFactory#create`: the event for the evaluation itself, then one per nested evaluation. */
  function EventsOf(request: Request, evaluation: Evaluation, timestamp: int): seq<UserEvent>
  {
    [EventOf(request, evaluation, timestamp, [])] + TargetEventsOf(request, evaluation.targetEvaluations, timestamp)
  }

  /** One event per nested evaluation, in the order the evaluations were made. */
  lemma TargetEventsAt(request: Request, targets: seq<Evaluation>, timestamp: int)
    ensures |TargetEventsOf(request, targets, timestamp)| == |targets|
    ensures forall i :: 0 <= i < |targets| ==>
      TargetEventsOf(request, targets, timestamp)[i] == EventOf(request, targets[i], timestamp, TargetingRootProperties(request))
  {
    Seqs.MapAt(TargetEventOf(request, timestamp), targets);
  }

  /** The events for one more nested evaluation: one more event at the end. */
  lemma TargetEventsStep(request: Request, targets: seq<Evaluation>, i: nat, timestamp: int)
    requires i < |targets|
    ensures TargetEventsOf(request, targets[..i + 1], timestamp) ==
      TargetEventsOf(request, targets[..i], timestamp) + [EventOf(request, targets[i], timestamp, TargetingRootProperties(request))]
  {
    Seqs.MapStep(TargetEventOf(request, timestamp), targets, i);
  }

  /**
   * The three properties of an exposure: the configuration id (absent
   * without a configuration), the experiment version and the execution
   * version; every other key keeps the value it had in the starting hash.
   */
  lemma ExposurePropertiesGet(base: seq<(string, Value)>, evaluation: Evaluation, k: string)
    requires evaluation.ExperimentEvaluation?
    requires PropertiesBuilders.PropertiesValid(base) && |base| <= 2
    requires Get(base, PARAMETER_CONFIGURATION_ID).None?
    ensures Get(ExposureProperties(base, evaluation), k) ==
      if k == EXECUTION_VERSION then Some(Num(evaluation.experiment.executionVersion))
      else if k == EXPERIMENT_VERSION then Some(Num(evaluation.experiment.version))
      else if k == PARAMETER_CONFIGURATION_ID && evaluation.config.Some? then Some(Num(evaluation.config.value.id))
      else Get(base, k)
  {
    var withConfig := PropertiesBuilders.AddProperty(base, Str(PARAMETER_CONFIGURATION_ID), ConfigurationIdOrNil(evaluation));
    AddConfigurationId(base, evaluation);
    var withVersion := PropertiesBuilders.AddProperty(withConfig, Str(EXPERIMENT_VERSION), Num(evaluation.experiment.version));
    AddNumber(withConfig, EXPERIMENT_VERSION, evaluation.experiment.version);
    AddNumber(withVersion, EXECUTION_VERSION, evaluation.experiment.executionVersion);
  }

  /** An exposure's properties are a valid builder hash. */
  lemma ExposurePropertiesValid(base: seq<(string, Value)>, evaluation: Evaluation)
    requires evaluation.ExperimentEvaluation?
    requires PropertiesBuilders.PropertiesValid(base) && |base| <= 2
    requires Get(base, PARAMETER_CONFIGURATION_ID).None?
    ensures PropertiesBuilders.PropertiesValid(ExposureProperties(base, evaluation))
  {
    var withConfig := PropertiesBuilders.AddProperty(base, Str(PARAMETER_CONFIGURATION_ID), ConfigurationIdOrNil(evaluation));
    AddConfigurationId(base, evaluation);
    var withVersion := PropertiesBuilders.AddProperty(withConfig, Str(EXPERIMENT_VERSION), Num(evaluation.experiment.version));
    AddNumber(withConfig, EXPERIMENT_VERSION, evaluation.experiment.version);
    AddNumber(withVersion, EXECUTION_VERSION, evaluation.experiment.executionVersion);
  }

  /** The first step of an exposure's properties: the configuration id, when there is a configuration. */
  lemma AddConfigurationId(base: seq<(string, Value)>, evaluation: Evaluation)
    requires evaluation.ExperimentEvaluation?
    requires PropertiesBuilders.PropertiesValid(base) && |base| <= 2
    requires Get(base, PARAMETER_CONFIGURATION_ID).None?
    ensures var r := PropertiesBuilders.AddProperty(base, Str(PARAMETER_CONFIGURATION_ID), ConfigurationIdOrNil(evaluation));
      && PropertiesBuilders.PropertiesValid(r) && |r| <= 3
      && (evaluation.config.Some? ==> Get(r, PARAMETER_CONFIGURATION_ID) == Some(Num(evaluation.config.value.id)))
      && (evaluation.config.None? ==> r == base)
      && forall k :: k != PARAMETER_CONFIGURATION_ID ==> Get(r, k) == Get(base, k)
  {
    if evaluation.config.Some? {
      AddNumber(base, PARAMETER_CONFIGURATION_ID, evaluation.config.value.id);
    }
  }

  /** Adding a number under a valid key below the cap sets that key and no other. */
  lemma AddNumber(props: seq<(string, Value)>, key: string, n: int)
    requires PropertiesBuilders.PropertiesValid(props) && |props| < PropertiesBuilders.MAX_PROPERTIES_COUNT
    requires PropertiesBuilders.ValidKey(Str(key))
    ensures var r := PropertiesBuilders.AddProperty(props, Str(key), Num(n));
      && PropertiesBuilders.PropertiesValid(r) && |r| <= |props| + 1
      && Get(r, key) == Some(Num(n))
      && forall other :: other != key ==> Get(r, other) == Get(props, other)
  {
    PropertiesBuilders.AddPropertyEffect(props, Str(key), Num(n), key);
    forall other | other != key
      ensures Get(PropertiesBuilders.AddProperty(props, Str(key), Num(n)), other) == Get(props, other)
    {
      PropertiesBuilders.AddPropertyEffect(props, Str(key), Num(n), other);
    }
  }

  /**
   * What `create` promises about the list: one shared timestamp and the
   * request's user on every event; the first event reports the evaluation
   * itself and the others the nested evaluations, in order.
   */
  lemma {:induction false} CreatedEvents(request: Request, evaluation: Evaluation, timestamp: int)
    ensures var events := EventsOf(request, evaluation, timestamp);
      && |events| == 1 + |evaluation.targetEvaluations|
      && (forall i :: 0 <= i < |events| ==> events[i].timestamp == timestamp && events[i].user == request.user)
      && Describes(events[0], evaluation)
      && (forall i :: 0 <= i < |evaluation.targetEvaluations| ==> Describes(events[i + 1], evaluation.targetEvaluations[i]))
  {
    var targets := evaluation.targetEvaluations;
    var events := EventsOf(request, evaluation, timestamp);
    EventsOfParts(request, evaluation, timestamp);
    TargetEventsAt(request, targets, timestamp);
    forall i | 0 <= i < |events|
      ensures events[i].timestamp == timestamp && events[i].user == request.user
      ensures i > 0 ==> Describes(events[i], targets[i - 1])
    {
      if i > 0 {
        NestedEventAt(request, evaluation, timestamp, i - 1);
      }
    }
  }

  /** The event at position `i + 1` is the one for the `i`-th nested evaluation. */
  lemma NestedEventAt(request: Request, evaluation: Evaluation, timestamp: int, i: nat)
    requires i < |evaluation.targetEvaluations|
    ensures |EventsOf(request, evaluation, timestamp)| == 1 + |evaluation.targetEvaluations|
    ensures EventsOf(request, evaluation, timestamp)[i + 1] ==
      EventOf(request, evaluation.targetEvaluations[i], timestamp, TargetingRootProperties(request))
  {
    var events := EventsOf(request, evaluation, timestamp);
    EventsOfParts(request, evaluation, timestamp);
    TargetEventsAt(request, evaluation.targetEvaluations, timestamp);
    assert events[i + 1] == events[1..][i];
  }

  /** The event for the evaluation itself comes first, then those of the nested evaluations. */
  lemma EventsOfParts(request: Request, evaluation: Evaluation, timestamp: int)
    ensures EventsOf(request, evaluation, timestamp)[0] == EventOf(request, evaluation, timestamp, [])
    ensures EventsOf(request, evaluation, timestamp)[1..] == TargetEventsOf(request, evaluation.targetEvaluations, timestamp)
  {
  }

  /** The exposure for the evaluation itself names no root request and carries the experiment's versions. */
  lemma RootExposureProperties(request: Request, evaluation: Evaluation, timestamp: int)
    requires evaluation.ExperimentEvaluation?
    ensures var event := EventsOf(request, evaluation, timestamp)[0];
      && event.ExposureEvent?
      && Get(event.properties, TARGETING_ROOT_TYPE).None? && Get(event.properties, TARGETING_ROOT_ID).None?
      && Get(event.properties, EXPERIMENT_VERSION) == Some(Num(evaluation.experiment.version))
      && Get(event.properties, EXECUTION_VERSION) == Some(Num(evaluation.experiment.executionVersion))
  {
    ExposurePropertiesGet([], evaluation, TARGETING_ROOT_TYPE);
    ExposurePropertiesGet([], evaluation, TARGETING_ROOT_ID);
    ExposurePropertiesGet([], evaluation, EXPERIMENT_VERSION);
    ExposurePropertiesGet([], evaluation, EXECUTION_VERSION);
  }

  /**
   * The exposure for a nested experiment names the root request (its key
   * type and id) and carries the nested experiment's versions.
   */
  lemma NestedExposureProperties(request: Request, evaluation: Evaluation, timestamp: int, i: nat)
    requires i < |evaluation.targetEvaluations| && evaluation.targetEvaluations[i].ExperimentEvaluation?
    ensures var events := EventsOf(request, evaluation, timestamp);
      var target := evaluation.targetEvaluations[i];
      && |events| == 1 + |evaluation.targetEvaluations|
      && events[i + 1].ExposureEvent?
      && Get(events[i + 1].properties, TARGETING_ROOT_TYPE) == Some(Str(request.key.keyType))
      && Get(events[i + 1].properties, TARGETING_ROOT_ID) == Some(Num(request.key.id))
      && Get(events[i + 1].properties, EXPERIMENT_VERSION) == Some(Num(target.experiment.version))
      && Get(events[i + 1].properties, EXECUTION_VERSION) == Some(Num(target.experiment.executionVersion))
  {
    NestedEventAt(request, evaluation, timestamp, i);
    TargetExposureProperties(request, evaluation.targetEvaluations[i], timestamp);
  }

  /** The exposure for one nested experiment, on its own. */
  lemma TargetExposureProperties(request: Request, target: Evaluation, timestamp: int)
    requires target.ExperimentEvaluation?
    ensures var event := EventOf(request, target, timestamp, TargetingRootProperties(request));
      && event.ExposureEvent?
      && Get(event.properties, TARGETING_ROOT_TYPE) == Some(Str(request.key.keyType))
      && Get(event.properties, TARGETING_ROOT_ID) == Some(Num(request.key.id))
      && Get(event.properties, EXPERIMENT_VERSION) == Some(Num(target.experiment.version))
      && Get(event.properties, EXECUTION_VERSION) == Some(Num(target.experiment.executionVersion))
  {
    var root := TargetingRootProperties(request);
    TargetingRootPropertiesEffect(request);
    ExposurePropertiesGet(root, target, TARGETING_ROOT_TYPE);
    ExposurePropertiesGet(root, target, TARGETING_ROOT_ID);
    ExposurePropertiesGet(root, target, EXPERIMENT_VERSION);
    ExposurePropertiesGet(root, target, EXECUTION_VERSION);
  }

  /** A hash every value of which survives the properties builder unchanged (what a builder produces). */
  predicate Clean(props: seq<(string, Value)>)
  {
    && PropertiesBuilders.PropertiesValid(props)
    && forall i :: 0 <= i < |props| ==> PropertiesBuilders.SanitizeValueOrNil(props[i].0, props[i].1) == Some(props[i].1)
  }

  /** Adding a clean hash to an empty builder gives the same hash back. */
  lemma {:induction false} AddAllCopiesClean(props: seq<(string, Value)>)
    requires Clean(props)
    ensures PropertiesBuilders.AddAllProperties([], PropertiesBuilders.ToHash(props).entries) == props
  {
    if |props| > 0 {
      var n := |props|;
      var entries := PropertiesBuilders.ToHash(props).entries;
      CleanFront(props);
      AddAllCopiesClean(props[..n - 1]);
      assert PropertiesBuilders.AddAllProperties([], entries) ==
        PropertiesBuilders.AddProperty(props[..n - 1], entries[n - 1].0, entries[n - 1].1);
      AddCleanLast(props);
    }
  }

  /** The front of a clean hash is clean, and its Hash value is the front of the whole one's. */
  lemma CleanFront(props: seq<(string, Value)>)
    requires Clean(props) && |props| > 0
    ensures Clean(props[..|props| - 1])
    ensures PropertiesBuilders.ToHash(props).entries[..|props| - 1] == PropertiesBuilders.ToHash(props[..|props| - 1]).entries
  {
    var n := |props|;
    var init := props[..n - 1];
    assert forall i :: 0 <= i < |init| ==> init[i] == props[i];
    forall i, j | 0 <= i < j < |init|
      ensures init[i].0 != init[j].0
    {
      assert props[i].0 != props[j].0;
    }
    assert PropertiesBuilders.PropertiesValid(init);
    var whole, front := PropertiesBuilders.ToHash(props).entries, PropertiesBuilders.ToHash(init).entries;
    forall i | 0 <= i < n - 1
      ensures whole[..n - 1][i] == front[i]
    {
      assert whole[i] == (Str(props[i].0), props[i].1);
    }
  }

  /** Adding the last pair of a clean hash to its front appends it. */
  lemma AddCleanLast(props: seq<(string, Value)>)
    requires Clean(props) && |props| > 0
    ensures PropertiesBuilders.AddProperty(props[..|props| - 1], Str(props[|props| - 1].0), props[|props| - 1].1) == props
  {
    var n := |props|;
    var init := props[..n - 1];
    var (k, v) := props[n - 1];
    forall j | 0 <= j < |init|
      ensures Keys(init)[j] != k
    {
      assert props[j].0 != props[n - 1].0;
    }
    assert Put(init, k, v) == init + [(k, v)];
    Seqs.SplitLast(props);
  }

  /** A remote-config event reports the evaluation's own properties when they came from a builder. */
  lemma RemoteConfigEventCopiesProperties(request: Request, evaluation: Evaluation, timestamp: int)
    requires evaluation.RemoteConfigEvaluation? && Clean(evaluation.properties)
    ensures EventOf(request, evaluation, timestamp, []).properties == evaluation.properties
  {
    AddAllCopiesClean(evaluation.properties);
  }

  /** `create_internal` with a builder the caller made (and may have added to). */
  method CreateInternal(request: Request, evaluation: Evaluation, timestamp: int,
                        builder: PropertiesBuilders.PropertiesBuilder) returns (event: UserEvent)
    requires builder.Valid()
    modifies builder
    ensures event == EventOf(request, evaluation, timestamp, old(builder.properties))
  {
    match evaluation
    case ExperimentEvaluation(reason, _, experiment, variationId, variationKey, _) =>
      builder.Add(Str(PARAMETER_CONFIGURATION_ID), ConfigurationIdOrNil(evaluation));
      builder.Add(Str(EXPERIMENT_VERSION), Num(experiment.version));
      builder.Add(Str(EXECUTION_VERSION), Num(experiment.executionVersion));
      event := ExposureEvent(timestamp, request.user, experiment, variationId, variationKey, reason, builder.Build());
    case RemoteConfigEvaluation(reason, _, parameter, valueId, _, properties) =>
      builder.AddAll(PropertiesBuilders.ToHash(properties));
      event := RemoteConfigEvent(timestamp, request.user, parameter, valueId, reason, builder.Build());
  }

  /** One pass of `create`'s loop: a builder holding the root request's key, then `create_internal`. */
  method CreateTargetEvent(request: Request, target: Evaluation, timestamp: int) returns (event: UserEvent)
    ensures event == EventOf(request, target, timestamp, TargetingRootProperties(request))
  {
    var builder := new PropertiesBuilders.PropertiesBuilder();
    builder.Add(Str(TARGETING_ROOT_TYPE), Str(request.key.keyType));
    builder.Add(Str(TARGETING_ROOT_ID), Num(request.key.id));
    assert builder.properties == TargetingRootProperties(request);
    event := CreateInternal(request, target, timestamp, builder);
  }

  /** `UserEventFactory#create` at the clock reading `timestamp`: a fresh builder per event. */
  method Create(request: Request, evaluation: Evaluation, timestamp: int) returns (events: seq<UserEvent>)
    ensures events == EventsOf(request, evaluation, timestamp)
  {
    var rootBuilder := new PropertiesBuilders.PropertiesBuilder();
    var root := CreateInternal(request, evaluation, timestamp, rootBuilder);
    var targetEvents: seq<UserEvent> := [];
    var targets := evaluation.targetEvaluations;
    var i := 0;
    while i < |targets|
      invariant 0 <= i <= |targets|
      invariant targetEvents == TargetEventsOf(request, targets[..i], timestamp)
    {
      var event := CreateTargetEvent(request, targets[i], timestamp);
      TargetEventsStep(request, targets, i, timestamp);
      targetEvents := targetEvents + [event];
      i := i + 1;
    }
    assert targets[..i] == targets;
    events := [root] + targetEvents;
  }

  // ----- user_event_dispatcher.rb: UserEventSerializer -----

  /** The JSON object of one exposure (the insert id aside). */
  datatype ExposureRecord = ExposureRecord(
    timestamp: int, userId: Option<string>, identifiers: seq<(string, string)>,
    userProperties: seq<(string, Value)>, hackleProperties: seq<(string, Value)>,
    experimentId: int, experimentKey: int, experimentType: string, experimentVersion: int,
    variationId: Option<int>, variationKey: string, decisionReason: DecisionReason,
    properties: seq<(string, Value)>)

  /** The JSON object of one track event (the insert id aside). */
  datatype TrackRecord = TrackRecord(
    timestamp: int, userId: Option<string>, identifiers: seq<(string, string)>,
    userProperties: seq<(string, Value)>, hackleProperties: seq<(string, Value)>,
    eventTypeId: int, eventTypeKey: Value, value: Value, properties: Value)

  /** The JSON object of one remote-config event (the insert id aside). */
  datatype RemoteConfigRecord = RemoteConfigRecord(
    timestamp: int, userId: Option<string>, identifiers: seq<(string, string)>,
    userProperties: seq<(string, Value)>, hackleProperties: seq<(string, Value)>,
    parameterId: int, parameterKey: string, parameterType: string,
    valueId: Option<int>, decisionReason: DecisionReason, properties: seq<(string, Value)>)

  /** The body posted to the collector: one list per event kind. */
  datatype Payload = Payload(exposureEvents: seq<ExposureRecord>, trackEvents: seq<TrackRecord>,
                             remoteConfigEvents: seq<RemoteConfigRecord>)

  /** `exposure_event` */
  function ExposureRecordOf(event: UserEvent): ExposureRecord
    requires event.ExposureEvent?
  {
    ExposureRecord(event.timestamp, Get(event.user.identifiers, ID_KEY), event.user.identifiers, event.user.properties, [],
                   event.experiment.id, event.experiment.key, ExperimentTypes.Name(event.experiment.experimentType),
                   event.experiment.version, event.variationId, event.variationKey, event.decisionReason, event.properties)
  }

  /** `track_event` */
  function TrackRecordOf(event: UserEvent): TrackRecord
    requires event.TrackEvent?
  {
    TrackRecord(event.timestamp, Get(event.user.identifiers, ID_KEY), event.user.identifiers, event.user.properties, [],
                event.eventTypeId, event.eventTypeKey, event.event.value, event.event.properties)
  }

  /** `remote_config_event` */
  function RemoteConfigRecordOf(event: UserEvent): RemoteConfigRecord
    requires event.RemoteConfigEvent?
  {
    RemoteConfigRecord(event.timestamp, Get(event.user.identifiers, ID_KEY), event.user.identifiers, event.user.properties, [],
                       event.parameter.id, event.parameter.key, ValueTypes.Name(event.parameter.parameterType),
                       event.valueId, event.decisionReason, event.properties)
  }

  /** One pass of the serializer's loop: the event's record joins the list of its kind. */
  function AddRecord(payload: Payload, event: UserEvent): Payload
  {
    match event
    case ExposureEvent(_, _, _, _, _, _, _) =>
      payload.(exposureEvents := payload.exposureEvents + [ExposureRecordOf(event)])
    case TrackEvent(_, _, _, _, _) =>
      payload.(trackEvents := payload.trackEvents + [TrackRecordOf(event)])
    case RemoteConfigEvent(_, _, _, _, _, _) =>
      payload.(remoteConfigEvents := payload.remoteConfigEvents + [RemoteConfigRecordOf(event)])
  }

  const EMPTY_PAYLOAD: Payload := Payload([], [], [])

  /** `UserEventSerializer#serialize`: the records of a batch, split by kind. */
  function Serialize(events: seq<UserEvent>): Payload
  {
    if |events| == 0 then EMPTY_PAYLOAD
    else AddRecord(Serialize(events[..|events| - 1]), events[|events| - 1])
  }

  /** Two payloads one after the other. */
  function Merge(a: Payload, b: Payload): Payload
  {
    Payload(a.exposureEvents + b.exposureEvents, a.trackEvents + b.trackEvents,
            a.remoteConfigEvents + b.remoteConfigEvents)
  }

  /** The number of records in a payload. */
  function RecordCount(payload: Payload): nat
  {
    |payload.exposureEvents| + |payload.trackEvents| + |payload.remoteConfigEvents|
  }

  /**
   * Serializing keeps order: the payload of two batches back to back is
   * the payload of the first followed, list by list, by that of the second.
   */
  lemma {:induction false} SerializeAppend(a: seq<UserEvent>, b: seq<UserEvent>)
    ensures Serialize(a + b) == Merge(Serialize(a), Serialize(b))
  {
    if |b| == 0 {
      assert a + b == a;
    } else {
      var init := b[..|b| - 1];
      var last := b[|b| - 1];
      SerializeAppend(a, init);
      assert (a + b)[..|a + b| - 1] == a + init;
      assert (a + b)[|a + b| - 1] == last;
      calc {
        Serialize(a + b);
        AddRecord(Serialize(a + init), last);
        AddRecord(Merge(Serialize(a), Serialize(init)), last);
        { MergeAddRecord(Serialize(a), Serialize(init), last); }
        Merge(Serialize(a), AddRecord(Serialize(init), last));
        Merge(Serialize(a), Serialize(b));
      }
    }
  }

  /** Adding a record after two payloads is adding it to the second. */
  lemma MergeAddRecord(p: Payload, q: Payload, event: UserEvent)
    ensures AddRecord(Merge(p, q), event) == Merge(p, AddRecord(q, event))
  {
    match event
    case ExposureEvent(_, _, _, _, _, _, _) =>
      assert p.exposureEvents + q.exposureEvents + [ExposureRecordOf(event)] ==
             p.exposureEvents + (q.exposureEvents + [ExposureRecordOf(event)]);
    case TrackEvent(_, _, _, _, _) =>
      assert p.trackEvents + q.trackEvents + [TrackRecordOf(event)] ==
             p.trackEvents + (q.trackEvents + [TrackRecordOf(event)]);
    case RemoteConfigEvent(_, _, _, _, _, _) =>
      assert p.remoteConfigEvents + q.remoteConfigEvents + [RemoteConfigRecordOf(event)] ==
             p.remoteConfigEvents + (q.remoteConfigEvents + [RemoteConfigRecordOf(event)]);
  }

  /**
   * Serializing is a partition: every event gives exactly one record, in
   * the list of its own kind, so none is lost or duplicated.
   */
  lemma {:induction false} SerializePartition(events: seq<UserEvent>)
    ensures RecordCount(Serialize(events)) == |events|
    ensures forall e :: e in events && e.ExposureEvent? ==> ExposureRecordOf(e) in Serialize(events).exposureEvents
    ensures forall e :: e in events && e.TrackEvent? ==> TrackRecordOf(e) in Serialize(events).trackEvents
    ensures forall e :: e in events && e.RemoteConfigEvent? ==> RemoteConfigRecordOf(e) in Serialize(events).remoteConfigEvents
  {
    if |events| > 0 {
      var init := events[..|events| - 1];
      var last := events[|events| - 1];
      SerializePartition(init);
      AddRecordEffect(Serialize(init), last);
      assert events == init + [last];
    }
  }

  /** One more event: one more record, in the list of its kind, and every earlier record kept. */
  lemma AddRecordEffect(payload: Payload, event: UserEvent)
    ensures var r := AddRecord(payload, event);
      && RecordCount(r) == RecordCount(payload) + 1
      && (forall x :: x in payload.exposureEvents ==> x in r.exposureEvents)
      && (forall x :: x in payload.trackEvents ==> x in r.trackEvents)
      && (forall x :: x in payload.remoteConfigEvents ==> x in r.remoteConfigEvents)
      && (event.ExposureEvent? ==> ExposureRecordOf(event) in r.exposureEvents)
      && (event.TrackEvent? ==> TrackRecordOf(event) in r.trackEvents)
      && (event.RemoteConfigEvent? ==> RemoteConfigRecordOf(event) in r.remoteConfigEvents)
  {
  }

  /** The serializer's loop over a batch. */
  method SerializeEvents(events: seq<UserEvent>) returns (payload: Payload)
    ensures payload == Serialize(events)
  {
    var exposureEvents: seq<ExposureRecord> := [];
    var trackEvents: seq<TrackRecord> := [];
    var remoteConfigEvents: seq<RemoteConfigRecord> := [];
    var i := 0;
    while i < |events|
      invariant 0 <= i <= |events|
      invariant Payload(exposureEvents, trackEvents, remoteConfigEvents) == Serialize(events[..i])
    {
      var event := events[i];
      assert events[..i + 1][..i] == events[..i];
      if event.ExposureEvent? {
        exposureEvents := exposureEvents + [ExposureRecordOf(event)];
      }
      if event.TrackEvent? {
        trackEvents := trackEvents + [TrackRecordOf(event)];
      }
      if event.RemoteConfigEvent? {
        remoteConfigEvents := remoteConfigEvents + [RemoteConfigRecordOf(event)];
      }
      i := i + 1;
    }
    assert events[..i] == events;
    payload := Payload(exposureEvents, trackEvents, remoteConfigEvents);
  }
}
