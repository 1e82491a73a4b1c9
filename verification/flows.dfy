/**
 * `EvaluationFlow`: a linked chain of flow steps ending in `End`, and the
 * two fixed pipelines `ExperimentEvaluationFlowFactory` builds for AB tests
 * and feature flags. What each step does lives with the evaluator; here
 * the chain is only a structure.
 */
module EvaluationFlows {
  import ExperimentTypes

  /** The ten `ExperimentFlowEvaluator`s. */
  datatype FlowStep =
    | OverrideEvaluator
    | IdentifierEvaluator
    | ContainerEvaluator
    | TargetEvaluator
    | DraftEvaluator
    | PausedEvaluator
    | CompletedEvaluator
    | TrafficAllocateEvaluator
    | TargetRuleEvaluator
    | DefaultRuleEvaluator

  /** `EvaluationFlow::End` and `EvaluationFlow::Decision(evaluator, next_flow)`. */
  datatype Flow = End | Decision(evaluator: FlowStep, next: Flow)

  /** The number of `Decision` nodes in a chain. */
  function Size(flow: Flow): nat
  {
    match flow
    case End => 0
    case Decision(_, next) => 1 + Size(next)
  }

  /** The steps of a chain, first to last. */
  function Steps(flow: Flow): (r: seq<FlowStep>)
    ensures |r| == Size(flow)
  {
    match flow
    case End => []
    case Decision(step, next) => [step] + Steps(next)
  }

  /** The chain `Decision(e1, Decision(e2, ... Decision(en, End)))` over a list of steps. */
  function Chain(steps: seq<FlowStep>): (r: Flow)
  {
    if |steps| == 0 then End else Decision(steps[0], Chain(steps[1..]))
  }

  /** The chain built from a list has exactly that list's steps, so it has one node per step. */
  lemma {:induction false} StepsOfChain(steps: seq<FlowStep>)
    ensures Steps(Chain(steps)) == steps
    ensures Size(Chain(steps)) == |steps|
  {
    if |steps| > 0 {
      StepsOfChain(steps[1..]);
      assert steps == [steps[0]] + steps[1..];
    }
  }

  /** Every chain is the chain of its own steps. */
  lemma {:induction false} ChainOfSteps(flow: Flow)
    ensures Chain(Steps(flow)) == flow
  {
    match flow
    case End =>
    case Decision(step, next) =>
      ChainOfSteps(next);
      assert ([step] + Steps(next))[1..] == Steps(next);
  }

  /**
   * `EvaluationFlow.create`: start from `End` and wrap the steps around it
   * from the last to the first.
   */
  method Create(steps: seq<FlowStep>) returns (flow: Flow)
    ensures flow == Chain(steps)
    ensures Steps(flow) == steps
  {
    flow := End;
    var i := |steps|;
    while i > 0
      invariant 0 <= i <= |steps|
      invariant flow == Chain(steps[i..])
    {
      i := i - 1;
      assert steps[i..][1..] == steps[i + 1..];
      flow := Decision(steps[i], flow);
    }
    assert steps[0..] == steps;
    StepsOfChain(steps);
  }

  /** The AB-test pipeline: override first, traffic allocation last. */
  const AB_TEST_STEPS: seq<FlowStep> :=
    [OverrideEvaluator, IdentifierEvaluator, ContainerEvaluator, TargetEvaluator,
     DraftEvaluator, PausedEvaluator, CompletedEvaluator, TrafficAllocateEvaluator]

  /** The feature-flag pipeline: status checks first, the default rule last. */
  const FEATURE_FLAG_STEPS: seq<FlowStep> :=
    [DraftEvaluator, PausedEvaluator, CompletedEvaluator, OverrideEvaluator,
     IdentifierEvaluator, TargetRuleEvaluator, DefaultRuleEvaluator]

  /** `ExperimentEvaluationFlowFactory#get`: the pipeline for an experiment type. */
  function FlowFor(experimentType: ExperimentTypes.ExperimentType): (r: Flow)
    ensures experimentType == ExperimentTypes.AB_TEST ==> Steps(r) == AB_TEST_STEPS
    ensures experimentType == ExperimentTypes.FEATURE_FLAG ==> Steps(r) == FEATURE_FLAG_STEPS
  {
    match experimentType
    case AB_TEST =>
      StepsOfChain(AB_TEST_STEPS);
      Chain(AB_TEST_STEPS)
    case FEATURE_FLAG =>
      StepsOfChain(FEATURE_FLAG_STEPS);
      Chain(FEATURE_FLAG_STEPS)
  }

  /** The first position of a step in a list (the list's length when absent). */
  function PositionOf(steps: seq<FlowStep>, step: FlowStep): (r: nat)
    ensures r <= |steps|
    ensures r < |steps| ==> steps[r] == step
    ensures forall i :: 0 <= i < r ==> steps[i] != step
  {
    if |steps| == 0 then 0
    else if steps[0] == step then 0
    else 1 + PositionOf(steps[1..], step)
  }

  /**
   * The order that decides who wins: for AB tests the override comes before
   * the draft, paused and completed checks; for feature flags after them.
   */
  lemma OverrideOrder()
    ensures PositionOf(AB_TEST_STEPS, OverrideEvaluator) == 0
    ensures PositionOf(AB_TEST_STEPS, DraftEvaluator) == 4
    ensures PositionOf(FEATURE_FLAG_STEPS, OverrideEvaluator) == 3
    ensures PositionOf(FEATURE_FLAG_STEPS, DraftEvaluator) == 0
    ensures PositionOf(FEATURE_FLAG_STEPS, CompletedEvaluator) == 2
  {
  }

  /** The steps that return an evaluation or raise, and never call the next flow. */
  predicate IsTerminal(step: FlowStep)
  {
    step == TrafficAllocateEvaluator || step == DefaultRuleEvaluator
  }

  /** A chain that holds a terminal step, so running it can never fall through to `End`. */
  predicate EndsTerminal(flow: Flow)
  {
    match flow
    case End => false
    case Decision(step, next) => IsTerminal(step) || EndsTerminal(next)
  }

  /** A chain never reaches `End` exactly when one of its steps is terminal. */
  lemma {:induction false} ChainEndsTerminal(steps: seq<FlowStep>)
    ensures EndsTerminal(Chain(steps)) <==> exists i :: 0 <= i < |steps| && IsTerminal(steps[i])
  {
    if |steps| > 0 {
      ChainEndsTerminal(steps[1..]);
      if exists i :: 0 <= i < |steps| && IsTerminal(steps[i]) {
        var i :| 0 <= i < |steps| && IsTerminal(steps[i]);
        if i > 0 {
          assert steps[1..][i - 1] == steps[i];
        }
      }
      if exists j :: 0 <= j < |steps[1..]| && IsTerminal(steps[1..][j]) {
        var j :| 0 <= j < |steps[1..]| && IsTerminal(steps[1..][j]);
        assert steps[j + 1] == steps[1..][j];
      }
    }
  }

  /** Both pipelines end in a step that never delegates, so running one never reaches `End`. */
  lemma PipelinesEndTerminal(experimentType: ExperimentTypes.ExperimentType)
    ensures EndsTerminal(FlowFor(experimentType))
  {
    var steps := if experimentType == ExperimentTypes.AB_TEST then AB_TEST_STEPS else FEATURE_FLAG_STEPS;
    ChainOfSteps(FlowFor(experimentType));
    assert FlowFor(experimentType) == Chain(steps);
    ChainEndsTerminal(steps);
    assert IsTerminal(steps[|steps| - 1]);
  }

  /** In each pipeline the step that never delegates is the last one, and only that one. */
  lemma OnlyLastStepTerminal()
    ensures IsTerminal(AB_TEST_STEPS[|AB_TEST_STEPS| - 1]) && IsTerminal(FEATURE_FLAG_STEPS[|FEATURE_FLAG_STEPS| - 1])
    ensures forall i :: 0 <= i < |AB_TEST_STEPS| - 1 ==> !IsTerminal(AB_TEST_STEPS[i])
    ensures forall i :: 0 <= i < |FEATURE_FLAG_STEPS| - 1 ==> !IsTerminal(FEATURE_FLAG_STEPS[i])
  {
  }

  /**
   * The first steps of the two pipelines: an AB test starts with its
   * overrides, a feature flag with its draft and paused checks.
   */
  lemma PipelineHeads()
    ensures FlowFor(ExperimentTypes.AB_TEST) == Decision(OverrideEvaluator, Chain(AB_TEST_STEPS[1..]))
    ensures FlowFor(ExperimentTypes.FEATURE_FLAG) ==
      Decision(DraftEvaluator, Decision(PausedEvaluator, Chain(FEATURE_FLAG_STEPS[2..])))
  {
    assert FEATURE_FLAG_STEPS[1..][1..] == FEATURE_FLAG_STEPS[2..];
  }
}
