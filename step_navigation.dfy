/**
 * The wizard's step-navigation state: the current step, the step list
 * shown in the progress bar, and the guarded moves between steps. The
 * form values the navigation watches are a field the form updates.
 */
module StepNavigation {
  import opened BlogTypes
  import opened WizardSchema
  import StepValidation

  /** The four steps as the wizard starts: none valid, none completed. */
  const INITIAL_STEPS: seq<WizardStep> := [
    WizardStep(1, "Blog Metadata", false, false),
    WizardStep(2, "Blog Summary & Category", false, false),
    WizardStep(3, "Blog Content", false, false),
    WizardStep(4, "Review & Submit", false, false)
  ]

  class Navigator {
    /** The number of steps the hook was configured with (4 by default). */
    const totalSteps: int
    /** The step being shown, counted from 1. */
    var currentStep: int
    /** The step list shown in the progress bar. */
    var steps: seq<WizardStep>
    /** The form values being watched. */
    var values: Draft

    ghost predicate Valid()
      reads this
    {
      && 1 <= currentStep <= totalSteps
      && |steps| == |INITIAL_STEPS|
      && forall k :: 0 <= k < |steps| ==> steps[k].id == k + 1 && steps[k].title == INITIAL_STEPS[k].title
    }

    /** Memoised validity of step `i`: known for 1..totalSteps, falsy (absent) otherwise. */
    function Status(i: int): bool
      reads this`values
    {
      1 <= i <= totalSteps && ValidateStepFields(i, values)
    }

    constructor (initialValues: Draft, totalSteps: int)
      requires totalSteps >= 1
      ensures Valid()
      ensures this.totalSteps == totalSteps && currentStep == 1
      ensures steps == INITIAL_STEPS && values == initialValues
    {
      this.totalSteps := totalSteps;
      currentStep := 1;
      steps := INITIAL_STEPS;
      values := initialValues;
    }

    /** Recomputes the validity of every step from 1 to totalSteps against the watched values. */
    method StepValidationStatus() returns (status: map<int, bool>)
      ensures forall i :: i in status <==> 1 <= i <= totalSteps
      ensures forall i :: i in status ==> status[i] == ValidateStepFields(i, values)
    {
      status := map[];
      var i := 1;
      while i <= totalSteps
        invariant 1 <= i && (totalSteps >= 1 ==> i <= totalSteps + 1) && (totalSteps < 1 ==> i == 1)
        invariant forall j :: j in status <==> 1 <= j < i
        invariant forall j :: j in status ==> status[j] == ValidateStepFields(j, values)
      {
        status := status[i := ValidateStepFields(i, values)];
        i := i + 1;
      }
    }

    /** The form reports a new value for a field; the navigation state is untouched. */
    method SetValue(f: Field, value: string)
      modifies this`values
      ensures values.Get(f) == value
      ensures forall g :: g != f ==> values.Get(g) == old(values).Get(g)
    {
      values := match f
        case Title => values.(title := value)
        case Author => values.(author := value)
        case Summary => values.(summary := value)
        case CategoryField => values.(category := value)
        case Content => values.(content := value);
    }

    /** The effect that refreshes the step list: each step's flags follow its memoised validity. */
    method SyncSteps()
      requires Valid()
      modifies this`steps
      ensures Valid()
      ensures |steps| == |old(steps)|
      ensures forall k :: 0 <= k < |steps| ==>
        && steps[k].id == old(steps)[k].id && steps[k].title == old(steps)[k].title
        && steps[k].isValid == Status(k + 1) && steps[k].isCompleted == Status(k + 1)
    {
      var status := StepValidationStatus();
      steps := seq(|steps|, k requires 0 <= k < |steps| reads this =>
        var s := steps[k];
        var ok := s.id in status && status[s.id];
        s.(isValid := ok, isCompleted := ok));
    }

    /** Whether a jump to `targetStep` is allowed from the current step. */
    method CanNavigateToStep(targetStep: int) returns (allowed: bool)
      ensures allowed <==> 1 <= targetStep <= totalSteps
                           && (targetStep <= currentStep || forall i :: 1 <= i < targetStep ==> Status(i))
    {
      if targetStep < 1 || targetStep > totalSteps {
        return false;
      }
      if targetStep <= currentStep {
        return true;
      }
      var status := StepValidationStatus();
      var i := 1;
      while i < targetStep
        invariant 1 <= i <= targetStep
        invariant forall j :: 1 <= j < i ==> Status(j)
      {
        if !(i in status && status[i]) {
          assert !Status(i);
          return false;
        }
        i := i + 1;
      }
      return true;
    }

    /** Advances one step when the current step is valid and is not the last. */
    method Next()
      requires Valid()
      modifies this`currentStep
      ensures Valid()
      ensures currentStep == if Status(old(currentStep)) && old(currentStep) < totalSteps
                             then old(currentStep) + 1 else old(currentStep)
    {
      var status := StepValidationStatus();
      var isCurrentStepValid := currentStep in status && status[currentStep];
      if isCurrentStepValid && currentStep < totalSteps {
        currentStep := currentStep + 1;
      }
    }

    /** Goes back one step unless already at the first; no validation. */
    method Previous()
      requires Valid()
      modifies this`currentStep
      ensures Valid()
      ensures currentStep == if old(currentStep) > 1 then old(currentStep) - 1 else old(currentStep)
    {
      if currentStep > 1 {
        currentStep := currentStep - 1;
      }
    }

    /** Jumps to `step` when navigation there is allowed; otherwise stays. */
    method GoTo(step: int)
      requires Valid()
      modifies this`currentStep
      ensures Valid()
      ensures var allowed := 1 <= step <= totalSteps
                             && (step <= old(currentStep) || forall i :: 1 <= i < step ==> Status(i));
              currentStep == if allowed then step else old(currentStep)
    {
      var allowed := CanNavigateToStep(step);
      if allowed {
        currentStep := step;
      }
    }

    /** The current step is valid. */
    function CanGoNext(): (r: bool)
      reads this
      ensures r <==> 1 <= currentStep <= totalSteps && ValidateStepFields(currentStep, values)
    {
      Status(currentStep)
    }

    /** Going back is possible from every step after the first. */
    function CanGoBack(): (r: bool)
      reads this
      ensures Valid() ==> (r <==> currentStep != 1)
    {
      currentStep > 1
    }

    /** The current step is the last one; no step lies beyond it. */
    function IsLastStep(): (r: bool)
      reads this
      ensures Valid() ==> (r <==> !(currentStep < totalSteps))
    {
      currentStep == totalSteps
    }

    /** The hook's own jump check agrees with the stand-alone helper fed the same values. */
    lemma CanNavigateAgreesWithHelper(targetStep: int)
      requires Valid()
      ensures (1 <= targetStep <= totalSteps && (targetStep <= currentStep || forall i :: 1 <= i < targetStep ==> Status(i)))
              <==> (1 <= targetStep <= totalSteps
                    && (targetStep <= currentStep || StepValidation.StepsValidThrough(targetStep - 1, values)))
    {
      if 1 <= targetStep <= totalSteps {
        if forall i :: 1 <= i < targetStep ==> Status(i) {
          forall i | 1 <= i <= targetStep - 1 ensures ValidateStepFields(i, values) {
            assert Status(i);
          }
        } else {
          var i :| 1 <= i < targetStep && !Status(i);
          assert !ValidateStepFields(i, values);
        }
      }
    }
  }
}
