/**
 * The setup wizard's frame: which screen each step shows, and the four
 * numbered progress indicators above it.
 */
module SetupWizard {
  import opened Types

  /** What `renderStep` shows. */
  datatype Screen = SampleUploadScreen | CropAreaScreen | EmployeeUploadScreen | TestTemplateScreen | CompletionScreen

  /** The switch over the step; every step value has its case, so the default branch is never taken. */
  function RenderStep(step: SetupStep): (s: Screen)
    ensures step == Upload <==> s == SampleUploadScreen
    ensures step == Crop <==> s == CropAreaScreen
    ensures step == Employees <==> s == EmployeeUploadScreen
    ensures step == Test <==> s == TestTemplateScreen
    ensures step == Complete <==> s == CompletionScreen
  {
    match step
    case Upload => SampleUploadScreen
    case Crop => CropAreaScreen
    case Employees => EmployeeUploadScreen
    case Test => TestTemplateScreen
    case Complete => CompletionScreen
  }

  /** The steps that have an indicator, in order. */
  const IndicatorSteps: seq<SetupStep> := [Upload, Crop, Employees, Test]

  /** `indexOf` in the indicator list: the step's position, or -1 for `complete`. */
  function StepIndex(step: SetupStep): (i: int)
    ensures -1 <= i < |IndicatorSteps|
    ensures i == -1 <==> step !in IndicatorSteps
    ensures i >= 0 ==> IndicatorSteps[i] == step
  {
    match step
    case Upload => 0
    case Crop => 1
    case Employees => 2
    case Test => 3
    case Complete => -1
  }

  /** The three looks of an indicator: the current step, a finished step, a step still ahead. */
  datatype Look = Current | Done | Ahead

  function IndicatorLook(index: nat, step: SetupStep): Look
    requires index < |IndicatorSteps|
  {
    if IndicatorSteps[index] == step then Current
    else if index < StepIndex(step) then Done
    else Ahead
  }

  /** A connector follows each indicator but the last. */
  function HasConnector(index: nat): (b: bool)
    requires index < |IndicatorSteps|
    ensures b <==> index + 1 < |IndicatorSteps|
  {
    index < 3
  }

  /**
   * Exactly the indicator of the current step is highlighted, and an
   * indicator is green exactly when it comes before the current step.
   */
  lemma IndicatorLooks(step: SetupStep, index: nat)
    requires index < |IndicatorSteps|
    ensures IndicatorLook(index, step) == Current <==> IndicatorSteps[index] == step
    ensures IndicatorLook(index, step) == Done <==> index < StepIndex(step)
    ensures IndicatorLook(index, step) == Ahead <==> index > StepIndex(step)
  {
    var i := StepIndex(step);
    if IndicatorSteps[index] == step {
      assert i >= 0 && IndicatorSteps[i] == step;
      assert index == i;
    } else if i >= 0 {
      assert index != i;
    }
  }

  /** Before the last step exactly one indicator is highlighted. */
  lemma OneCurrentIndicator(step: SetupStep)
    requires step != Complete
    ensures exists index :: 0 <= index < |IndicatorSteps| && IndicatorLook(index, step) == Current
    ensures forall a, b ::
      (0 <= a < |IndicatorSteps| && 0 <= b < |IndicatorSteps|
       && IndicatorLook(a, step) == Current && IndicatorLook(b, step) == Current) ==> a == b
  {
    var i := StepIndex(step);
    assert IndicatorLook(i, step) == Current;
  }

  /** On the completion screen no indicator is highlighted or green. */
  lemma CompleteShowsNoProgress(index: nat)
    requires index < |IndicatorSteps|
    ensures IndicatorLook(index, Complete) == Ahead
  {
  }
}
