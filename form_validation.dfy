/**
 * The per-field error map kept by the form-validation hook: validating a
 * field sets or deletes that field's entry, validating a step replaces the
 * entries of the step's fields, and clearing empties the map.
 */
module FormValidation {
  import opened BlogTypes
  import opened Validation
  import WizardSchema

  /** The hook's own step table: unlike the schema's, the review step owns all five fields. */
  function StepFieldsOf(step: int): (fields: seq<Field>)
    ensures 1 <= step <= 3 ==> fields == WizardSchema.StepFields(step)
    ensures step == 4 ==> fields == AllFields && WizardSchema.StepFields(4) == []
    ensures !(1 <= step <= 4) ==> fields == []
  {
    if step == 1 then [Title, Author]
    else if step == 2 then [Summary, CategoryField]
    else if step == 3 then [Content]
    else if step == 4 then [Title, Author, Summary, CategoryField, Content]
    else []
  }

  /** The entry for `f` holds `error` if it is non-empty and is absent otherwise; no other entry changes. */
  function SetOrClear(errors: map<Field, string>, f: Field, error: string): (r: map<Field, string>)
    ensures f in r <==> error != ""
    ensures f in r ==> r[f] == error
    ensures forall g :: g != f ==> (g in r <==> g in errors)
    ensures forall g :: g != f && g in r ==> r[g] == errors[g]
  {
    if error != "" then errors[f := error] else errors - {f}
  }

  /** A step error that is worth recording. */
  predicate Recorded(stepErrors: map<Field, string>, f: Field)
  {
    f in stepErrors && stepErrors[f] != ""
  }

  /**
   * The map after a step validation: the step's own entries are dropped,
   * every non-empty step error is written, everything else is kept.
   */
  function ApplyStepErrors(errors: map<Field, string>, fields: seq<Field>, stepErrors: map<Field, string>)
    : (r: map<Field, string>)
    ensures forall g :: g in r <==> Recorded(stepErrors, g) || (g in errors && g !in fields)
    ensures forall g :: Recorded(stepErrors, g) ==> r[g] == stepErrors[g]
    ensures forall g :: g in r && !Recorded(stepErrors, g) ==> r[g] == errors[g]
  {
    map g | g in errors.Keys + stepErrors.Keys && (Recorded(stepErrors, g) || (g in errors && g !in fields))
      :: if Recorded(stepErrors, g) then stepErrors[g] else errors[g]
  }

  /** Deletes the entries of `fields`, one after the other. */
  method DeleteFields(errors: map<Field, string>, fields: seq<Field>) returns (r: map<Field, string>)
    ensures forall g :: g in r <==> g in errors && g !in fields
    ensures forall g :: g in r ==> r[g] == errors[g]
  {
    r := errors;
    var k := 0;
    while k < |fields|
      invariant 0 <= k <= |fields|
      invariant forall g :: g in r <==> g in errors && g !in fields[..k]
      invariant forall g :: g in r ==> r[g] == errors[g]
    {
      r := r - {fields[k]};
      assert fields[..k + 1] == fields[..k] + [fields[k]];
      k := k + 1;
    }
    assert fields[..k] == fields;
  }

  /** Writes every non-empty entry of `stepErrors` over `errors`. */
  method RecordNonEmpty(errors: map<Field, string>, stepErrors: map<Field, string>) returns (r: map<Field, string>)
    ensures forall g :: g in r <==> Recorded(stepErrors, g) || g in errors
    ensures forall g :: Recorded(stepErrors, g) ==> r[g] == stepErrors[g]
    ensures forall g :: g in r && !Recorded(stepErrors, g) ==> r[g] == errors[g]
  {
    r := errors;
    var pending := stepErrors.Keys;
    while pending != {}
      invariant pending <= stepErrors.Keys
      invariant forall g :: g in r <==> (Recorded(stepErrors, g) && g !in pending) || g in errors
      invariant forall g :: Recorded(stepErrors, g) && g !in pending ==> r[g] == stepErrors[g]
      invariant forall g :: g in r && !(Recorded(stepErrors, g) && g !in pending) ==> r[g] == errors[g]
      decreases pending
    {
      var field :| field in pending;
      if stepErrors[field] != "" {
        r := r[field := stepErrors[field]];
      }
      pending := pending - {field};
    }
  }

  /** The update a step validation makes: clear the step's entries, then record the step's messages. */
  method ReplaceStepErrors(errors: map<Field, string>, fields: seq<Field>, stepErrors: map<Field, string>)
    returns (r: map<Field, string>)
    ensures r == ApplyStepErrors(errors, fields, stepErrors)
  {
    var cleared := DeleteFields(errors, fields);
    r := RecordNonEmpty(cleared, stepErrors);
    var expected := ApplyStepErrors(errors, fields, stepErrors);
    assert r.Keys == expected.Keys;
    assert forall g :: g in r ==> r[g] == expected[g];
  }

  class FieldErrorMap {
    /** The message shown under each field; a field without an entry shows none. */
    var errors: map<Field, string>

    constructor ()
      ensures errors == map[]
    {
      errors := map[];
    }

    /** Validates one field, records or clears its entry, and returns the message. */
    method ValidateSingleField(field: Field, value: string) returns (error: string)
      modifies this
      ensures error == ValidateField(FieldName(field), value)
      ensures errors == SetOrClear(old(errors), field, error)
    {
      error := ValidateField(FieldName(field), value);
      errors := SetOrClear(errors, field, error);
    }

    /**
     * Validates a step: clears the entries of the step's fields, writes
     * every non-empty entry of `stepErrors` (the per-step messages, supplied
     * by the caller), and returns the step's validity.
     */
    method ValidateStepData(step: int, data: Draft, stepErrors: map<Field, string>) returns (isValid: bool)
      modifies this
      ensures isValid == ValidateStep(step, data)
      ensures errors == ApplyStepErrors(old(errors), StepFieldsOf(step), stepErrors)
    {
      isValid := ValidateStep(step, data);
      errors := ReplaceStepErrors(errors, StepFieldsOf(step), stepErrors);
    }

    /** Forgets every message. */
    method ClearErrors()
      modifies this
      ensures errors == map[]
    {
      errors := map[];
    }
  }
}
