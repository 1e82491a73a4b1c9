/**
 * The searches of the evaluation engine are Ruby's `find`, `any?` and
 * `all?` with the matcher as the block: each equals `Seqs.FindThreaded`
 * or `Seqs.AnyOrAllThreaded` over its matcher, whose scans
 * (`Seqs.FindThreadedIsScan`, `Seqs.AnyOrAllThreadedIsScan`) say which
 * elements are looked at and which one decides.
 */
module EvaluationScans {
  import opened Wrappers
  import opened Seqs
  import opened Model
  import opened Evaluators
  import opened EvaluationSpec

  /** The target matcher applied to a rule's target, as a block of the searches. */
  function RuleTargetMatcher(env: Env, request: Request, inFlight: seq<Request>): (TargetRule, seq<Evaluation>) -> (Result<bool>, seq<Evaluation>)
  {
    (rule: TargetRule, t: seq<Evaluation>) => TargetMatches(env, request, rule.target, inFlight, t)
  }

  /** The target matcher, as a block of the searches. */
  function TargetMatcher(env: Env, request: Request, inFlight: seq<Request>): (Target, seq<Evaluation>) -> (Result<bool>, seq<Evaluation>)
  {
    (target: Target, t: seq<Evaluation>) => TargetMatches(env, request, target, inFlight, t)
  }

  /** The condition matcher, as a block of the searches. */
  function ConditionMatcher(env: Env, request: Request, inFlight: seq<Request>): (TargetCondition, seq<Evaluation>) -> (Result<bool>, seq<Evaluation>)
  {
    (condition: TargetCondition, t: seq<Evaluation>) => ConditionMatches(env, request, condition, inFlight, t)
  }

  /** The remote-config rule matcher, as a block of the searches (only remote-config requests reach it). */
  function RemoteConfigRuleMatcher(env: Env, request: Request, inFlight: seq<Request>): (RemoteConfigTargetRule, seq<Evaluation>) -> (Result<bool>, seq<Evaluation>)
  {
    (rule: RemoteConfigTargetRule, t: seq<Evaluation>) =>
      if request.RemoteConfigRequest? then RemoteConfigRuleMatches(env, request, rule, inFlight, t) else (Ok(false), t)
  }

  /** `target_rules.find { |it| target_matcher.matches(..., it.target) }`. */
  lemma {:induction false} FirstMatchingRuleIsFind(env: Env, request: Request, rules: seq<TargetRule>, inFlight: seq<Request>,
                                                   trace: seq<Evaluation>)
    ensures FirstMatchingRule(env, request, rules, inFlight, trace) == FindThreaded(RuleTargetMatcher(env, request, inFlight), rules, trace)
  {
    if |rules| > 0 {
      var m := TargetMatches(env, request, rules[0].target, inFlight, trace);
      assert RuleTargetMatcher(env, request, inFlight)(rules[0], trace) == m;
      if m.0 == Ok(false) {
        FirstMatchingRuleIsFind(env, request, rules[1..], inFlight, m.1);
      }
    }
  }

  /** `target_audiences.any? { |it| target_matcher.matches(..., it) }`. */
  lemma {:induction false} AnyTargetMatchesIsAny(env: Env, request: Request, targets: seq<Target>, inFlight: seq<Request>,
                                                 trace: seq<Evaluation>)
    ensures AnyTargetMatches(env, request, targets, inFlight, trace) == AnyOrAllThreaded(TargetMatcher(env, request, inFlight), targets, false, trace)
  {
    if |targets| > 0 {
      var m := TargetMatches(env, request, targets[0], inFlight, trace);
      assert TargetMatcher(env, request, inFlight)(targets[0], trace) == m;
      if m.0 == Ok(false) {
        AnyTargetMatchesIsAny(env, request, targets[1..], inFlight, m.1);
      }
    }
  }

  /** `conditions.all? { |it| condition_matches(..., it) }`. */
  lemma {:induction false} AllConditionsMatchIsAll(env: Env, request: Request, conditions: seq<TargetCondition>, inFlight: seq<Request>,
                                                   trace: seq<Evaluation>)
    ensures AllConditionsMatch(env, request, conditions, inFlight, trace) == AnyOrAllThreaded(ConditionMatcher(env, request, inFlight), conditions, true, trace)
  {
    if |conditions| > 0 {
      var m := ConditionMatches(env, request, conditions[0], inFlight, trace);
      assert ConditionMatcher(env, request, inFlight)(conditions[0], trace) == m;
      if m.0 == Ok(true) {
        AllConditionsMatchIsAll(env, request, conditions[1..], inFlight, m.1);
      }
    }
  }

  /** `TargetMatcher#matches` is the `all?` over the target's conditions. */
  lemma TargetMatchesIsAll(env: Env, request: Request, target: Target, inFlight: seq<Request>, trace: seq<Evaluation>)
    ensures TargetMatches(env, request, target, inFlight, trace) == AnyOrAllThreaded(ConditionMatcher(env, request, inFlight), target.conditions, true, trace)
  {
    AllConditionsMatchIsAll(env, request, target.conditions, inFlight, trace);
  }

  /** `user_in_experiment_target?`: true without audiences, otherwise the `any?` over them. */
  lemma InExperimentTargetIsAny(env: Env, request: Request, inFlight: seq<Request>, trace: seq<Evaluation>)
    requires request.ExperimentRequest?
    ensures InExperimentTarget(env, request, inFlight, trace) ==
      if request.experiment.targetAudiences == [] then (Ok(true), trace)
      else AnyOrAllThreaded(TargetMatcher(env, request, inFlight), request.experiment.targetAudiences, false, trace)
  {
    AnyTargetMatchesIsAny(env, request, request.experiment.targetAudiences, inFlight, trace);
  }

  /** `RemoteConfigTargetRuleDeterminer#determine_or_nil`: `target_rules.find` with the remote-config rule matcher. */
  lemma {:induction false} DetermineRemoteConfigRuleIsFind(env: Env, request: Request, rules: seq<RemoteConfigTargetRule>,
                                                           inFlight: seq<Request>, trace: seq<Evaluation>)
    requires request.RemoteConfigRequest?
    ensures DetermineRemoteConfigRule(env, request, rules, inFlight, trace) == FindThreaded(RemoteConfigRuleMatcher(env, request, inFlight), rules, trace)
  {
    if |rules| > 0 {
      var m := RemoteConfigRuleMatches(env, request, rules[0], inFlight, trace);
      assert RemoteConfigRuleMatcher(env, request, inFlight)(rules[0], trace) == m;
      if m.0 == Ok(false) {
        DetermineRemoteConfigRuleIsFind(env, request, rules[1..], inFlight, m.1);
      }
    }
  }
}
