/**
 * Step-level helpers over the form library's state: navigation permission,
 * per-step errors and touched fields, and the per-step summary. The form
 * state is passed in as the current values, the error messages the form
 * library holds per field, and the set of touched fields.
 */
module StepValidation {
  import opened BlogTypes
  import opened WizardSchema

  /** Every step from 1 up to `last` validates against the draft (true when `last` < 1). */
  predicate StepsValidThrough(last: int, data: Draft)
  {
    forall i :: 1 <= i <= last ==> ValidateStepFields(i, data)
  }

  /**
   * Whether the wizard may jump from `currentStep` to `targetStep`:
   * out-of-range targets never, going back or staying always, and going
   * forward only when every earlier step validates.
   */
  method CanNavigateToStep(targetStep: int, currentStep: int, data: Draft, totalSteps: int) returns (allowed: bool)
    ensures allowed <==> 1 <= targetStep <= totalSteps && (targetStep <= currentStep || StepsValidThrough(targetStep - 1, data))
  {
    if targetStep < 1 || targetStep > totalSteps {
      return false;
    }
    if targetStep <= currentStep {
      return true;
    }
    var i := 1;
    while i < targetStep
      invariant 1 <= i <= targetStep
      invariant StepsValidThrough(i - 1, data)
    {
      if !ValidateStepFields(i, data) {
        return false;
      }
      i := i + 1;
    }
    return true;
  }

  /** The step's fields for which the form library holds a non-empty message. */
  predicate HasStepError(step: int, formErrors: map<Field, string>, f: Field)
  {
    f in StepFields(step) && f in formErrors && formErrors[f] != ""
  }

  /** Copies the non-empty messages of the step's own fields; other fields are ignored. */
  method GetStepErrors(step: int, formErrors: map<Field, string>) returns (stepErrors: map<Field, string>)
    ensures forall f :: f in stepErrors <==> HasStepError(step, formErrors, f)
    ensures forall f :: f in stepErrors ==> f in formErrors && stepErrors[f] == formErrors[f]
  {
    var stepFields := StepFields(step);
    stepErrors := map[];
    var k := 0;
    while k < |stepFields|
      invariant 0 <= k <= |stepFields|
      invariant forall f :: f in stepErrors <==> f in stepFields[..k] && f in formErrors && formErrors[f] != ""
      invariant forall f :: f in stepErrors ==> f in formErrors && stepErrors[f] == formErrors[f]
    {
      var field := stepFields[k];
      if field in formErrors && formErrors[field] != "" {
        stepErrors := stepErrors[field := formErrors[field]];
      }
      assert stepFields[..k + 1] == stepFields[..k] + [field];
      k := k + 1;
    }
    assert stepFields[..k] == stepFields;
  }

  /** Some field of the step carries a message. */
  predicate HasStepErrors(step: int, formErrors: map<Field, string>)
  {
    exists f :: HasStepError(step, formErrors, f)
  }

  /** Whether some field of the step carries a message. */
  method StepHasErrors(step: int, formErrors: map<Field, string>) returns (hasErrors: bool)
    ensures hasErrors <==> HasStepErrors(step, formErrors)
  {
    var stepErrors := GetStepErrors(step, formErrors);
    hasErrors := |stepErrors.Keys| > 0;
    if !hasErrors {
      assert stepErrors.Keys == {};
    } else {
      var f :| f in stepErrors.Keys;
      assert HasStepError(step, formErrors, f);
    }
  }

  /** The members of `fields` that are touched. */
  function TouchedAmong(fields: seq<Field>, touched: set<Field>): (r: seq<Field>)
    ensures forall f :: f in r <==> f in fields && f in touched
    ensures |r| <= |fields|
    ensures |r| == |fields| <==> forall i :: 0 <= i < |fields| ==> fields[i] in touched
  {
    if fields == [] then []
    else if fields[0] in touched then [fields[0]] + TouchedAmong(fields[1..], touched)
    else TouchedAmong(fields[1..], touched)
  }

  /** The step's fields that have been touched. */
  function GetStepTouchedFields(step: int, touched: set<Field>): (r: seq<Field>)
    ensures forall f :: f in r <==> f in StepFields(step) && f in touched
  {
    TouchedAmong(StepFields(step), touched)
  }

  /** Every field of the step has been touched; vacuously so for a step without fields. */
  function IsStepTouched(step: int, touched: set<Field>): (r: bool)
    ensures r <==> forall f :: f in StepFields(step) ==> f in touched
    ensures StepFields(step) == [] ==> r
  {
    var fields := StepFields(step);
    forall i :: 0 <= i < |fields| ==> fields[i] in touched
  }

  /** A step is touched exactly when filtering its fields by "touched" keeps them all. */
  lemma TouchedIffAllKept(step: int, touched: set<Field>)
    ensures IsStepTouched(step, touched) <==> |GetStepTouchedFields(step, touched)| == |StepFields(step)|
  {
  }

  /** Whether steps 1 to `targetStep` all validate. */
  method ValidateStepsUpTo(targetStep: int, data: Draft) returns (valid: bool)
    ensures valid <==> StepsValidThrough(targetStep, data)
  {
    var i := 1;
    while i <= targetStep
      invariant 1 <= i && (targetStep >= 1 ==> i <= targetStep + 1)
      invariant StepsValidThrough(i - 1, data)
    {
      if !ValidateStepFields(i, data) {
        return false;
      }
      i := i + 1;
    }
    return true;
  }

  /** Validating steps 1 to 4 accepts exactly the drafts the whole schema accepts. */
  lemma StepsThroughFourIffWholeSchema(data: Draft)
    ensures StepsValidThrough(4, data) <==> ParseForm(data).Some?
  {
    FirstThreeStepsIffWholeSchema(data);
    if ValidateStepFields(1, data) && ValidateStepFields(2, data) && ValidateStepFields(3, data) {
      assert ValidateStepFields(4, data);
      forall i | 1 <= i <= 4 ensures ValidateStepFields(i, data) {
        if i == 4 {} else if i == 3 {} else if i == 2 {} else {}
      }
    } else {
      assert !StepsValidThrough(3, data);
    }
  }

  /** One row of the step summary. */
  datatype StepStatus = StepStatus(step: int, isValid: bool, hasErrors: bool, isTouched: bool)

  /** One row per step from 1 to `totalSteps`, in order. */
  method GetStepValidationSummary(data: Draft, formErrors: map<Field, string>, touched: set<Field>, totalSteps: int)
    returns (summary: seq<StepStatus>)
    ensures |summary| == if totalSteps < 1 then 0 else totalSteps
    ensures forall k :: 0 <= k < |summary| ==>
      && summary[k].step == k + 1
      && summary[k].isValid == ValidateStepFields(k + 1, data)
      && summary[k].hasErrors == HasStepErrors(k + 1, formErrors)
      && summary[k].isTouched == IsStepTouched(k + 1, touched)
  {
    summary := [];
    var i := 1;
    while i <= totalSteps
      invariant 1 <= i && (totalSteps >= 1 ==> i <= totalSteps + 1) && (totalSteps < 1 ==> i == 1)
      invariant |summary| == i - 1
      invariant forall k :: 0 <= k < |summary| ==>
        && summary[k].step == k + 1
        && summary[k].isValid == ValidateStepFields(k + 1, data)
        && summary[k].hasErrors == HasStepErrors(k + 1, formErrors)
        && summary[k].isTouched == IsStepTouched(k + 1, touched)
    {
      var hasErrors := StepHasErrors(i, formErrors);
      summary := summary + [StepStatus(i, ValidateStepFields(i, data), hasErrors, IsStepTouched(i, touched))];
      i := i + 1;
    }
  }
}
