/**
 * The condition matchers that do not evaluate other experiments: the
 * dispatch by key type, the user condition matcher and its value
 * resolver, the segment condition matcher, and the pure halves of the
 * experiment condition matchers (the memo lookup, the reason rewrite and
 * the final match).
 */
module ConditionMatchers {
  import opened Wrappers
  import opened RubyValues
  import opened OrderedMaps
  import opened Seqs
  import opened Model
  import opened Workspaces
  import opened Users
  import opened Evaluators
  import opened DecisionReasons
  import opened ValueOperatorMatchers
  import Text
  import TargetKeyTypes
  import TargetMatchTypes

  /** Ruby's `to_s` for the values an error message interpolates. */
  function Show(v: Value): string
  {
    match v
    case Null => ""
    case Str(s) => s
    case Num(n) => Text.IntToString(n)
    case Bool(b) => if b then "true" else "false"
    case _ => "#<Object>"
  }

  // ----- condition_matcher_factory.rb -----

  /** The three matchers the factory holds. */
  datatype ConditionMatcherKind = UserConditionMatcher | SegmentConditionMatcher | ExperimentConditionMatcher

  /** `ConditionMatcherFactory#get`: user keys, segments and experiment references each go to their own matcher. */
  function MatcherFor(keyType: TargetKeyTypes.TargetKeyType): (r: ConditionMatcherKind)
    ensures r == UserConditionMatcher <==>
      keyType in {TargetKeyTypes.USER_ID, TargetKeyTypes.USER_PROPERTY, TargetKeyTypes.HACKLE_PROPERTY}
    ensures r == SegmentConditionMatcher <==> keyType == TargetKeyTypes.SEGMENT
    ensures r == ExperimentConditionMatcher <==> keyType in {TargetKeyTypes.AB_TEST, TargetKeyTypes.FEATURE_FLAG}
  {
    match keyType
    case USER_ID => UserConditionMatcher
    case USER_PROPERTY => UserConditionMatcher
    case HACKLE_PROPERTY => UserConditionMatcher
    case SEGMENT => SegmentConditionMatcher
    case AB_TEST => ExperimentConditionMatcher
    case FEATURE_FLAG => ExperimentConditionMatcher
  }

  // ----- user_condition_matcher.rb -----

  /**
   * `UserValueResolver#resolve_or_nil`: the identifier or property the key
   * names; HACKLE_PROPERTY resolves to nothing; other key types raise.
   */
  function UserValueOrNil(user: HackleUser, key: TargetKey): (r: Result<Option<Value>>)
    ensures r.Failure? <==> key.keyType !in {TargetKeyTypes.USER_ID, TargetKeyTypes.USER_PROPERTY, TargetKeyTypes.HACKLE_PROPERTY}
    ensures key.keyType == TargetKeyTypes.HACKLE_PROPERTY ==> r == Ok(None)
    ensures key.keyType == TargetKeyTypes.USER_ID ==>
      r.Ok? && (r.value.Some? <==> key.name in Keys(user.identifiers)) &&
      (r.value.Some? ==> r.value.value == Str(Get(user.identifiers, key.name).value))
    ensures key.keyType == TargetKeyTypes.USER_PROPERTY ==> r == Ok(Get(user.properties, key.name))
  {
    match key.keyType
    case USER_ID =>
      var id := Get(user.identifiers, key.name);
      if id.None? then Ok(None) else Ok(Some(Str(id.value)))
    case USER_PROPERTY => Ok(Get(user.properties, key.name))
    case HACKLE_PROPERTY => Ok(None)
    case _ => Failure("unsupported TargetKeyType: " + TargetKeyTypes.Name(key.keyType))
  }

  /**
   * `UserConditionMatcher#matches`: a missing user value is false whatever
   * the match type; a present one goes to the value/operator matcher.
   */
  function UserConditionMatches(user: HackleUser, condition: TargetCondition): (r: Result<bool>)
    ensures UserValueOrNil(user, condition.key).Failure? ==> r.Failure?
    ensures UserValueOrNil(user, condition.key) == Ok(None) ==> r == Ok(false)
    ensures UserValueOrNil(user, condition.key).Ok? && UserValueOrNil(user, condition.key).value.Some? &&
            UserValueOrNil(user, condition.key).value.value != Null ==>
      r == MatchesValue(UserValueOrNil(user, condition.key).value.value, condition.targetMatch)
  {
    var userValue := UserValueOrNil(user, condition.key);
    if userValue.Failure? then Failure(userValue.error)
    else if userValue.value.None? || userValue.value.value == Null then Ok(false)
    else MatchesValue(userValue.value.value, condition.targetMatch)
  }

  /** A HACKLE_PROPERTY condition never matches, not even under NOT_MATCH. */
  lemma HacklePropertyNeverMatches(user: HackleUser, condition: TargetCondition)
    requires condition.key.keyType == TargetKeyTypes.HACKLE_PROPERTY
    ensures UserConditionMatches(user, condition) == Ok(false)
    ensures UserConditionMatches(user, condition.(targetMatch := condition.targetMatch.(matchType := TargetMatchTypes.NOT_MATCH))) == Ok(false)
  {
  }

  // ----- segment_condition_matcher.rb -----

  /** `SegmentMatcher#target_matches`: every condition of the target holds under the user condition matcher. */
  function UserTargetMatches(user: HackleUser, target: Target): (r: Result<bool>)
    ensures r == Ok(true) <==> forall j :: 0 <= j < |target.conditions| ==> UserConditionMatches(user, target.conditions[j]) == Ok(true)
  {
    AllOk(target.conditions, (c: TargetCondition) => UserConditionMatches(user, c))
  }

  /** `SegmentMatcher#matches`: some target of the segment matches (none for an empty segment). */
  function SegmentMatches(user: HackleUser, segment: Segment): (r: Result<bool>)
    ensures r == Ok(false) <==> forall j :: 0 <= j < |segment.targets| ==> UserTargetMatches(user, segment.targets[j]) == Ok(false)
    ensures r == Ok(true) ==> exists j :: 0 <= j < |segment.targets| && UserTargetMatches(user, segment.targets[j]) == Ok(true)
    ensures segment.targets == [] ==> r == Ok(false)
  {
    AnyOk(segment.targets, (t: Target) => UserTargetMatches(user, t))
  }

  /** `SegmentConditionMatcher#value_matches`: the candidate must be a String naming a segment of the workspace. */
  function SegmentValueMatches(workspace: Workspace, user: HackleUser, value: Value): (r: Result<bool>)
    ensures !value.Str? ==> r == Failure("segment key [" + Show(value) + "]")
    ensures value.Str? && value.s !in workspace.segments ==> r == Failure("segment [" + value.s + "]")
    ensures value.Str? && value.s in workspace.segments ==> r == SegmentMatches(user, workspace.segments[value.s])
  {
    if !value.Str? then Failure("segment key [" + Show(value) + "]")
    else
      var segment := GetSegmentOrNil(workspace, value.s);
      if segment.None? then Failure("segment [" + value.s + "]")
      else SegmentMatches(user, segment.value)
  }

  /**
   * `SegmentConditionMatcher#matches`: some candidate key names a matching
   * segment, scanning in order and stopping at the first match; the match
   * type's polarity is applied to that answer.
   */
  function SegmentConditionMatches(workspace: Workspace, user: HackleUser, condition: TargetCondition): (r: Result<bool>)
    ensures condition.key.keyType != TargetKeyTypes.SEGMENT ==> r.Failure?
    ensures condition.key.keyType == TargetKeyTypes.SEGMENT &&
            (forall j :: 0 <= j < |condition.targetMatch.values| ==>
               SegmentValueMatches(workspace, user, condition.targetMatch.values[j]) == Ok(false)) ==>
      r == Ok(TargetMatchTypes.Matches(condition.targetMatch.matchType, false))
    ensures condition.key.keyType == TargetKeyTypes.SEGMENT && r.Ok? &&
            r.value == TargetMatchTypes.Matches(condition.targetMatch.matchType, true) ==>
      exists j :: 0 <= j < |condition.targetMatch.values| &&
        SegmentValueMatches(workspace, user, condition.targetMatch.values[j]) == Ok(true) &&
        forall i :: 0 <= i < j ==> SegmentValueMatches(workspace, user, condition.targetMatch.values[i]) == Ok(false)
  {
    if condition.key.keyType != TargetKeyTypes.SEGMENT then
      Failure("unsupported TargetKeyType [" + TargetKeyTypes.Name(condition.key.keyType) + "]")
    else
      var matches := AnyOk(condition.targetMatch.values, (v: Value) => SegmentValueMatches(workspace, user, v));
      if matches.Failure? then Failure(matches.error)
      else
        TargetMatchTypes.MatchesPolarity(condition.targetMatch.matchType, matches.value);
        Ok(TargetMatchTypes.Matches(condition.targetMatch.matchType, matches.value))
  }

  /**
   * The scan stops at the first matching segment: whatever follows it,
   * even a key that is not a String, is never looked at.
   */
  lemma SegmentScanStopsAtFirstMatch(workspace: Workspace, user: HackleUser, condition: TargetCondition, rest: seq<Value>)
    requires condition.key.keyType == TargetKeyTypes.SEGMENT
    requires |condition.targetMatch.values| > 0
    requires SegmentValueMatches(workspace, user, condition.targetMatch.values[0]) == Ok(true)
    ensures SegmentConditionMatches(workspace, user, condition) ==
            SegmentConditionMatches(workspace, user, condition.(targetMatch := condition.targetMatch.(values := [condition.targetMatch.values[0]] + rest)))
    ensures SegmentConditionMatches(workspace, user, condition) == Ok(TargetMatchTypes.Matches(condition.targetMatch.matchType, true))
  {
  }

  // ----- experiment_evaluator_matcher.rb (the parts that do not evaluate) -----

  /** `AbTestEvaluatorMatcher` and `FeatureFlagEvaluatorMatcher`. */
  datatype ExperimentMatcherKind = AbTestMatcher | FeatureFlagMatcher

  /** `experiment_or_nil`: AB tests are looked up among experiments, feature flags among feature flags. */
  function ExperimentOrNil(kind: ExperimentMatcherKind, workspace: Workspace, key: int): (r: Option<Experiment>)
    ensures kind == AbTestMatcher ==> r == GetExperimentOrNil(workspace, key)
    ensures kind == FeatureFlagMatcher ==> r == GetFeatureFlagOrNil(workspace, key)
  {
    match kind
    case AbTestMatcher => GetExperimentOrNil(workspace, key)
    case FeatureFlagMatcher => GetFeatureFlagOrNil(workspace, key)
  }

  /** Whether an evaluation in the context is the memoised one for an experiment id. */
  predicate IsEvaluationOf(evaluation: Evaluation, experimentId: int)
  {
    evaluation.ExperimentEvaluation? && evaluation.experiment.id == experimentId
  }

  /** `get_evaluation_or_nil`: the first experiment evaluation in the context for that experiment id. */
  function EvaluationOrNil(evaluations: seq<Evaluation>, experimentId: int): (r: Option<Evaluation>)
    ensures r.None? <==> forall i :: 0 <= i < |evaluations| ==> !IsEvaluationOf(evaluations[i], experimentId)
    ensures r.Some? ==>
      exists k :: (0 <= k < |evaluations| && r.value == evaluations[k] &&
                   IsEvaluationOf(evaluations[k], experimentId) &&
                   forall i :: 0 <= i < k ==> !IsEvaluationOf(evaluations[i], experimentId))
  {
    Find(evaluations, (e: Evaluation) => IsEvaluationOf(e, experimentId))
  }

  /** Appending to the context never hides an evaluation already found, and the first one stays the answer. */
  lemma EvaluationOrNilAppend(evaluations: seq<Evaluation>, more: seq<Evaluation>, experimentId: int)
    ensures EvaluationOrNil(evaluations, experimentId).Some? ==>
      EvaluationOrNil(evaluations + more, experimentId) == EvaluationOrNil(evaluations, experimentId)
    ensures EvaluationOrNil(evaluations, experimentId).None? ==>
      EvaluationOrNil(evaluations + more, experimentId) == EvaluationOrNil(more, experimentId)
  {
    var all := evaluations + more;
    var a := EvaluationOrNil(evaluations, experimentId);
    var b := EvaluationOrNil(all, experimentId);
    if a.Some? {
      var k :| 0 <= k < |evaluations| && a.value == evaluations[k] && IsEvaluationOf(evaluations[k], experimentId) &&
        forall i :: 0 <= i < k ==> !IsEvaluationOf(evaluations[i], experimentId);
      assert all[k] == evaluations[k];
      var k' :| 0 <= k' < |all| && b.value == all[k'] && IsEvaluationOf(all[k'], experimentId) &&
        forall i :: 0 <= i < k' ==> !IsEvaluationOf(all[i], experimentId);
      assert k' <= k;
      assert all[k'] == evaluations[k'];
    } else {
      var c := EvaluationOrNil(more, experimentId);
      if c.Some? {
        var m :| 0 <= m < |more| && c.value == more[m] && IsEvaluationOf(more[m], experimentId) &&
          forall i :: 0 <= i < m ==> !IsEvaluationOf(more[i], experimentId);
        assert all[|evaluations| + m] == more[m];
        var k' :| 0 <= k' < |all| && b.value == all[k'] && IsEvaluationOf(all[k'], experimentId) &&
          forall i :: 0 <= i < k' ==> !IsEvaluationOf(all[i], experimentId);
        assert k' >= |evaluations|;
        assert all[k'] == more[k' - |evaluations|];
      } else {
        forall i | 0 <= i < |all|
          ensures !IsEvaluationOf(all[i], experimentId)
        {
          if i < |evaluations| {
            assert all[i] == evaluations[i];
          } else {
            assert all[i] == more[i - |evaluations|];
          }
        }
      }
    }
  }

  /**
   * `resolve_evaluation`: for AB tests nested under an experiment request,
   * TRAFFIC_ALLOCATED becomes TRAFFIC_ALLOCATED_BY_TARGETING; everything
   * else is kept as it is.
   */
  function ResolveEvaluation(kind: ExperimentMatcherKind, request: Request, evaluation: Evaluation): (r: Evaluation)
    requires evaluation.ExperimentEvaluation?
    ensures r.ExperimentEvaluation?
    ensures r.experiment == evaluation.experiment && r.variationId == evaluation.variationId
    ensures r.variationKey == evaluation.variationKey && r.config == evaluation.config
    ensures r.targetEvaluations == evaluation.targetEvaluations
    ensures r.reason != evaluation.reason <==>
      kind == AbTestMatcher && request.ExperimentRequest? && evaluation.reason == TRAFFIC_ALLOCATED
    ensures r.reason != evaluation.reason ==> r.reason == TRAFFIC_ALLOCATED_BY_TARGETING
  {
    if kind == AbTestMatcher && request.ExperimentRequest? && evaluation.reason == TRAFFIC_ALLOCATED then
      With(evaluation, TRAFFIC_ALLOCATED_BY_TARGETING)
    else evaluation
  }

  /** Resolving twice is resolving once. */
  lemma ResolveEvaluationIdempotent(kind: ExperimentMatcherKind, request: Request, evaluation: Evaluation)
    requires evaluation.ExperimentEvaluation?
    ensures ResolveEvaluation(kind, request, ResolveEvaluation(kind, request, evaluation)) == ResolveEvaluation(kind, request, evaluation)
  {
  }

  /** The reasons for which an AB-test condition looks at the variation key. */
  const AB_TEST_MATCHED_REASONS: set<DecisionReason> :=
    {OVERRIDDEN, TRAFFIC_ALLOCATED, TRAFFIC_ALLOCATED_BY_TARGETING, EXPERIMENT_COMPLETED}

  /**
   * `evaluation_matches`: an AB test matches its variation key, and only
   * for the four reasons above; a feature flag matches whether it is on
   * (its variation key is not `A`).
   */
  function EvaluationMatches(kind: ExperimentMatcherKind, evaluation: Evaluation, targetMatch: TargetMatch): (r: Result<bool>)
    requires evaluation.ExperimentEvaluation?
    ensures kind == AbTestMatcher && evaluation.reason !in AB_TEST_MATCHED_REASONS ==> r == Ok(false)
    ensures kind == AbTestMatcher && evaluation.reason in AB_TEST_MATCHED_REASONS ==>
      r == MatchesValue(Str(evaluation.variationKey), targetMatch)
    ensures kind == FeatureFlagMatcher ==> r == MatchesValue(Bool(evaluation.variationKey != "A"), targetMatch)
  {
    match kind
    case AbTestMatcher =>
      if evaluation.reason !in AB_TEST_MATCHED_REASONS then Ok(false)
      else MatchesValue(Str(evaluation.variationKey), targetMatch)
    case FeatureFlagMatcher => MatchesValue(Bool(evaluation.variationKey != "A"), targetMatch)
  }

  /** The rewrite never changes whether an AB-test condition matches. */
  lemma ResolveKeepsMatch(kind: ExperimentMatcherKind, request: Request, evaluation: Evaluation, targetMatch: TargetMatch)
    requires evaluation.ExperimentEvaluation?
    ensures EvaluationMatches(kind, ResolveEvaluation(kind, request, evaluation), targetMatch) ==
            EvaluationMatches(kind, evaluation, targetMatch)
  {
  }
}
