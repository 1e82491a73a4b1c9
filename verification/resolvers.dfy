/**
 * The experiment resolvers that need no targeting: the action resolver
 * (a fixed variation or a bucket), the user override, and the
 * mutual-exclusion container check.
 */
module ExperimentResolvers {
  import opened Wrappers
  import opened OrderedMaps
  import opened Model
  import opened Workspaces
  import opened Evaluators
  import opened Bucketing
  import Text
  import ActionTypes

  /** `request.user.identifiers[request.experiment.identifier_type]` */
  function IdentifierOrNil(request: Request): Option<string>
    requires request.ExperimentRequest?
  {
    Get(request.user.identifiers, request.experiment.identifierType)
  }

  /**
   * `ExperimentActionResolver#resolve_or_nil`. A VARIATION action names a
   * variation that must exist. A BUCKET action names a bucket that must
   * exist; the user is then bucketed by the experiment's identifier, and
   * the slot's variation is looked up.
   */
  function ActionResolve(hasher: Hasher, request: Request, action: Action): (r: Result<Option<Variation>>)
    requires request.ExperimentRequest?
    ensures r.Ok? && r.value.Some? ==> r.value.value in request.experiment.variations
    ensures action.actionType == ActionTypes.VARIATION ==>
      (r.Failure? <==> action.variationId.None? ||
                       GetVariationOrNilById(request.experiment, action.variationId.value).None?)
    ensures action.actionType == ActionTypes.VARIATION && r.Ok? ==>
      r.value.Some? && Some(r.value.value.id) == action.variationId
    ensures action.actionType == ActionTypes.VARIATION && action.variationId.None? ==>
      r == Failure("action variation [" + Text.IntToString(request.experiment.id) + "]")
    ensures action.actionType == ActionTypes.VARIATION && action.variationId.Some? ==>
      var variation := GetVariationOrNilById(request.experiment, action.variationId.value);
      && (variation.None? ==> r == Failure("variation [" + Text.IntToString(action.variationId.value) + "]"))
      && (variation.Some? ==> r == Ok(variation))
    ensures action.actionType == ActionTypes.BUCKET && action.bucketId.None? ==>
      r == Failure("action bucket [" + Text.IntToString(request.experiment.id) + "]")
    ensures action.actionType == ActionTypes.BUCKET && action.bucketId.None? ==> r.Failure?
    ensures action.actionType == ActionTypes.BUCKET && action.bucketId.Some? &&
            action.bucketId.value !in request.workspace.buckets ==>
      r == Failure("bucket [" + Text.IntToString(action.bucketId.value) + "]")
    ensures action.actionType == ActionTypes.BUCKET && action.bucketId.Some? &&
            action.bucketId.value in request.workspace.buckets && IdentifierOrNil(request).None? ==>
      r == Ok(None)
    ensures action.actionType == ActionTypes.BUCKET && r.Ok? && r.value.Some? ==>
      action.bucketId.Some? && action.bucketId.value in request.workspace.buckets && IdentifierOrNil(request).Some? &&
      var bucket := request.workspace.buckets[action.bucketId.value];
      Bucketing.Bucketing(hasher, bucket, IdentifierOrNil(request).value).Ok? &&
      Bucketing.Bucketing(hasher, bucket, IdentifierOrNil(request).value).value.Some? &&
      Bucketing.Bucketing(hasher, bucket, IdentifierOrNil(request).value).value.value.variationId == r.value.value.id
    ensures action.actionType == ActionTypes.BUCKET && action.bucketId.Some? &&
            action.bucketId.value in request.workspace.buckets && IdentifierOrNil(request).Some? ==>
      var slot := Bucketing.Bucketing(hasher, request.workspace.buckets[action.bucketId.value], IdentifierOrNil(request).value);
      && (slot.Failure? ==> r == Failure(slot.error))
      && (slot.Ok? && slot.value.None? ==> r == Ok(None))
      && (slot.Ok? && slot.value.Some? ==> r == Ok(GetVariationOrNilById(request.experiment, slot.value.value.variationId)))
  {
    var experiment := request.experiment;
    match action.actionType
    case VARIATION =>
      if action.variationId.None? then Failure("action variation [" + Text.IntToString(experiment.id) + "]")
      else
        var variation := GetVariationOrNilById(experiment, action.variationId.value);
        if variation.None? then Failure("variation [" + Text.IntToString(action.variationId.value) + "]")
        else Ok(variation)
    case BUCKET =>
      if action.bucketId.None? then Failure("action bucket [" + Text.IntToString(experiment.id) + "]")
      else
        var bucket := GetBucketOrNil(request.workspace, action.bucketId.value);
        if bucket.None? then Failure("bucket [" + Text.IntToString(action.bucketId.value) + "]")
        else
          var identifier := IdentifierOrNil(request);
          if identifier.None? then Ok(None)
          else
            var slot := Bucketing.Bucketing(hasher, bucket.value, identifier.value);
            if slot.Failure? then Failure(slot.error)
            else if slot.value.None? then Ok(None)
            else Ok(GetVariationOrNilById(experiment, slot.value.value.variationId))
  }

  /**
   * `ExperimentOverrideResolver#resolve_user_override`: the variation the
   * experiment's user overrides assign to the user's identifier, if that
   * variation exists.
   */
  function UserOverrideResolve(request: Request): (r: Option<Variation>)
    requires request.ExperimentRequest?
    ensures r.Some? <==>
      IdentifierOrNil(request).Some? && IdentifierOrNil(request).value in request.experiment.userOverrides &&
      GetVariationOrNilById(request.experiment, request.experiment.userOverrides[IdentifierOrNil(request).value]).Some?
    ensures r.Some? ==>
      r.value in request.experiment.variations &&
      r.value.id == request.experiment.userOverrides[IdentifierOrNil(request).value]
    ensures r.Some? ==> r == GetVariationOrNilById(request.experiment, request.experiment.userOverrides[IdentifierOrNil(request).value])
  {
    var identifier := IdentifierOrNil(request);
    if identifier.None? then None
    else
      var overridden := Lookup(request.experiment.userOverrides, identifier.value);
      if overridden.None? then None
      else GetVariationOrNilById(request.experiment, overridden.value)
  }

  /**
   * `ExperimentContainerResolver#user_in_container_group?`: the user is
   * bucketed into one group of the container, and the experiment must be
   * listed in that group.
   */
  function ContainerResolve(hasher: Hasher, request: Request, container: Container): (r: Result<bool>)
    requires request.ExperimentRequest?
    ensures IdentifierOrNil(request).None? ==> r == Ok(false)
    ensures IdentifierOrNil(request).Some? && container.bucketId !in request.workspace.buckets ==>
      r == Failure("bucket [" + Text.IntToString(container.bucketId) + "]")
    ensures r == Ok(true) ==>
      IdentifierOrNil(request).Some? && container.bucketId in request.workspace.buckets &&
      var slot := Bucketing.Bucketing(hasher, request.workspace.buckets[container.bucketId], IdentifierOrNil(request).value);
      slot.Ok? && slot.value.Some? &&
      exists g :: g in container.groups && g.id == slot.value.value.variationId && request.experiment.id in g.experiments
    ensures IdentifierOrNil(request).Some? && container.bucketId in request.workspace.buckets ==>
      var slot := Bucketing.Bucketing(hasher, request.workspace.buckets[container.bucketId], IdentifierOrNil(request).value);
      && (slot.Failure? ==> r == Failure(slot.error))
      && (slot.Ok? && slot.value.None? ==> r == Ok(false))
      && (slot.Ok? && slot.value.Some? ==>
            var group := GetGroupOrNil(container, slot.value.value.variationId);
            && (group.None? ==> r == Failure("container group [" + Text.IntToString(slot.value.value.variationId) + "]"))
            && (group.Some? ==> r == Ok(request.experiment.id in group.value.experiments)))
  {
    var identifier := IdentifierOrNil(request);
    if identifier.None? then Ok(false)
    else
      var bucket := GetBucketOrNil(request.workspace, container.bucketId);
      if bucket.None? then Failure("bucket [" + Text.IntToString(container.bucketId) + "]")
      else
        var slot := Bucketing.Bucketing(hasher, bucket.value, identifier.value);
        if slot.Failure? then Failure(slot.error)
        else if slot.value.None? then Ok(false)
        else
          var group := GetGroupOrNil(container, slot.value.value.variationId);
          if group.None? then Failure("container group [" + Text.IntToString(slot.value.value.variationId) + "]")
          else Ok(request.experiment.id in group.value.experiments)
  }
}
