/**
 * The declarative form schema used by the wizard's form library: length
 * checks on the RAW string, trimming only as an output transform, the
 * category enumeration, and the step-to-fields table.
 */
module WizardSchema {
  import opened BlogTypes
  import opened Validation

  /**
   * A string field with `min(1)`, `min(lo)` and an optional `max(hi)`: every
   * check runs on the untrimmed value and all must pass.
   */
  predicate LengthChecks(raw: string, lo: nat, hi: Option<nat>)
  {
    |raw| >= 1 && |raw| >= lo && (hi.None? || |raw| <= hi.value)
  }

  /**
   * Whether the schema accepts the value the draft holds for field `f`:
   * the length bounds on the raw value, or exact membership for the category.
   */
  function FieldAccepted(f: Field, data: Draft): (accepted: bool)
    ensures f == Title ==> (accepted <==> 3 <= |data.title| <= 100)
    ensures f == Author ==> (accepted <==> 2 <= |data.author| <= 50)
    ensures f == Summary ==> (accepted <==> 10 <= |data.summary| <= 300)
    ensures f == CategoryField ==> (accepted <==> data.category in {"Tech", "Lifestyle", "Business"})
    ensures f == Content ==> (accepted <==> |data.content| >= 50)
  {
    match f
    case Title => LengthChecks(data.title, 3, Some(100))
    case Author => LengthChecks(data.author, 2, Some(50))
    case Summary => LengthChecks(data.summary, 10, Some(300))
    case CategoryField => IsCategory(data.category)
    case Content => LengthChecks(data.content, 50, None)
  }

  /**
   * Parsing a string field: checks on the raw value, then the trimmed value
   * is the output.
   */
  function ParseString(raw: string, lo: nat, hi: Option<nat>): (r: Option<string>)
    ensures r.Some? <==> LengthChecks(raw, lo, hi)
    ensures r.Some? ==> r.value == Trim(raw)
  {
    if LengthChecks(raw, lo, hi) then Some(Trim(raw)) else None
  }

  /** Parsing the whole form: every field must pass; strings come out trimmed. */
  function ParseForm(data: Draft): (r: Option<Draft>)
    ensures r.Some? <==> forall f: Field :: FieldAccepted(f, data)
    ensures r.Some? ==> r.value == Draft(Trim(data.title), Trim(data.author), Trim(data.summary), data.category, Trim(data.content))
  {
    var title := ParseString(data.title, 3, Some(100));
    var author := ParseString(data.author, 2, Some(50));
    var summary := ParseString(data.summary, 10, Some(300));
    var content := ParseString(data.content, 50, None);
    assert FieldAccepted(Title, data) && FieldAccepted(Author, data) && FieldAccepted(Summary, data)
        && FieldAccepted(CategoryField, data) && FieldAccepted(Content, data)
        ==> forall f: Field :: FieldAccepted(f, data);
    if title.Some? && author.Some? && summary.Some? && IsCategory(data.category) && content.Some? then
      Some(Draft(title.value, author.value, summary.value, data.category, content.value))
    else
      None
  }

  /** The fields each step owns; the review step and any other number own none. */
  function StepFields(step: int): (fields: seq<Field>)
    ensures step == 1 ==> fields == [Title, Author]
    ensures step == 2 ==> fields == [Summary, CategoryField]
    ensures step == 3 ==> fields == [Content]
    ensures fields == [] <==> !(1 <= step <= 3)
  {
    if step == 1 then [Title, Author]
    else if step == 2 then [Summary, CategoryField]
    else if step == 3 then [Content]
    else []
  }

  /** The schema restricted to `fields` accepts the draft. */
  predicate AllAccepted(fields: seq<Field>, data: Draft)
  {
    forall i :: 0 <= i < |fields| ==> FieldAccepted(fields[i], data)
  }

  /**
   * A step validates when the schema picked down to its fields accepts the
   * draft; a step without fields (4, but also 0 or 5) falls back to the
   * conjunction of steps 1 to 3.
   */
  function ValidateStepFields(step: int, data: Draft): (valid: bool)
    ensures 1 <= step <= 3 ==> (valid <==> forall f :: f in StepFields(step) ==> FieldAccepted(f, data))
    ensures !(1 <= step <= 3) ==> (valid <==> ValidateStepFields(1, data) && ValidateStepFields(2, data) && ValidateStepFields(3, data))
    decreases if StepFields(step) == [] then 1 else 0
  {
    var fields := StepFields(step);
    if |fields| == 0 then
      ValidateStepFields(1, data) && ValidateStepFields(2, data) && ValidateStepFields(3, data)
    else
      AllAccepted(fields, data)
  }

  /** Steps 1 to 3 together accept exactly the drafts the whole schema accepts. */
  lemma FirstThreeStepsIffWholeSchema(data: Draft)
    ensures ValidateStepFields(1, data) && ValidateStepFields(2, data) && ValidateStepFields(3, data)
            <==> ParseForm(data).Some?
  {
    if ValidateStepFields(1, data) && ValidateStepFields(2, data) && ValidateStepFields(3, data) {
      forall f: Field ensures FieldAccepted(f, data) {
        match f
        case Title => assert Title in StepFields(1);
        case Author => assert Author in StepFields(1);
        case Summary => assert Summary in StepFields(2);
        case CategoryField => assert CategoryField in StepFields(2);
        case Content => assert Content in StepFields(3);
      }
    }
  }

  /**
   * A value with no surrounding whitespace is judged alike by both rule
   * sets; the category is never trimmed and is always judged alike.
   */
  lemma FieldRulesAgreeOnTrimmedValue(f: Field, data: Draft)
    requires f != CategoryField ==> Trim(data.Get(f)) == data.Get(f)
    ensures FieldAccepted(f, data) <==> FieldError(f, data.Get(f)) == ""
  {
    match f
    case Title =>
    case Author =>
    case Summary =>
    case CategoryField =>
    case Content =>
  }

  /** On a draft whose strings carry no surrounding whitespace, steps 1 to 4 are judged alike by both rule sets. */
  lemma StepRulesAgreeOnTrimmedDraft(data: Draft, step: int)
    requires Trim(data.title) == data.title && Trim(data.author) == data.author
    requires Trim(data.summary) == data.summary && Trim(data.content) == data.content
    requires 1 <= step <= 4
    ensures ValidateStepFields(step, data) <==> ValidateStep(step, data)
  {
    if step == 1 {
      MetadataRulesAgree(data);
    } else if step == 2 {
      SummaryRulesAgree(data);
    } else if step == 3 {
      ContentRulesAgree(data);
    } else {
      MetadataRulesAgree(data);
      SummaryRulesAgree(data);
      ContentRulesAgree(data);
      ReviewRulesAgree(data);
    }
  }

  lemma MetadataRulesAgree(data: Draft)
    requires Trim(data.title) == data.title && Trim(data.author) == data.author
    ensures ValidateStepFields(1, data) <==> ValidateStep(1, data)
  {
    FieldRulesAgreeOnTrimmedValue(Title, data);
    FieldRulesAgreeOnTrimmedValue(Author, data);
    assert StepFields(1) == [Title, Author];
  }

  lemma SummaryRulesAgree(data: Draft)
    requires Trim(data.summary) == data.summary
    ensures ValidateStepFields(2, data) <==> ValidateStep(2, data)
  {
    FieldRulesAgreeOnTrimmedValue(Summary, data);
    FieldRulesAgreeOnTrimmedValue(CategoryField, data);
    assert StepFields(2) == [Summary, CategoryField];
  }

  lemma ContentRulesAgree(data: Draft)
    requires Trim(data.content) == data.content
    ensures ValidateStepFields(3, data) <==> ValidateStep(3, data)
  {
    FieldRulesAgreeOnTrimmedValue(Content, data);
    assert StepFields(3) == [Content];
  }

  /** Both rule sets define the review step as the conjunction of steps 1 to 3. */
  lemma ReviewRulesAgree(data: Draft)
    requires ValidateStepFields(1, data) <==> ValidateStep(1, data)
    requires ValidateStepFields(2, data) <==> ValidateStep(2, data)
    requires ValidateStepFields(3, data) <==> ValidateStep(3, data)
    ensures ValidateStepFields(4, data) <==> ValidateStep(4, data)
  {
  }

  /** A blank title passes the raw-length schema but is missing for the trimmed validator. */
  lemma BlankTitleDisagreement()
    ensures FieldAccepted(Title, Draft("   ", "", "", "", ""))
    ensures ValidateTitle("   ") == REQUIRED_FIELD
  {
    assert AllSpace("   ");
  }

  /** A padded title within 100 characters once trimmed, but over 100 raw, is refused only by the schema. */
  lemma PaddedTitleDisagreement()
    ensures var t := "abc" + seq(98, _ => ' ');
      !FieldAccepted(Title, Draft(t, "", "", "", "")) && ValidateTitle(t) == ""
  {
    var t := "abc" + seq(98, _ => ' ');
    assert Trim(t) == "abc" by {
      assert t[..3] == "abc";
      assert AllSpace(t[3..]);
      TrimOfPadded(t, 3);
    }
  }

  /** Trimming a string whose tail after a non-blank prefix is all whitespace keeps the prefix. */
  lemma {:induction false} TrimOfPadded(t: string, n: nat)
    requires 0 < n <= |t| && AllSpace(t[n..]) && !IsSpace(t[0]) && !IsSpace(t[n - 1])
    ensures Trim(t) == t[..n]
    decreases |t|
  {
    if |t| > n {
      assert IsSpace(t[|t| - 1]) by { assert t[|t| - 1] == t[n..][|t| - 1 - n]; }
      assert TrimEnd(t) == TrimEnd(t[..|t| - 1]);
      assert AllSpace(t[..|t| - 1][n..]) by { assert t[..|t| - 1][n..] == t[n..][..|t| - 1 - n]; }
      TrimOfPadded(t[..|t| - 1], n);
      assert t[..|t| - 1][..n] == t[..n];
    } else {
      assert t[..n] == t;
    }
  }

  /**
   * Step validity differs between the two rule sets outside 1..4: the
   * hand-written one rejects, the schema falls back to steps 1-3.
   */
  lemma UnknownStepsDisagree(step: int, data: Draft)
    requires !(1 <= step <= 4)
    ensures !ValidateStep(step, data)
    ensures ValidateStepFields(step, data) <==> ValidateStepFields(4, data)
  {
  }
}
