/**
 * Field- and step-level validation on trimmed strings (the hand-written
 * rule set used by the per-field error map).
 */
module Validation {
  import opened BlogTypes

  // ---------------------------------------------------------------------
  // String trimming with the whitespace set of ECMAScript's String.prototype.trim
  // ---------------------------------------------------------------------

  /** WhiteSpace and LineTerminator code points as the language defines them. */
  predicate IsSpace(c: char)
  {
    || c == '\U{9}' || c == '\U{A}' || c == '\U{B}' || c == '\U{C}' || c == '\U{D}'
    || c == '\U{20}' || c == '\U{A0}' || c == '\U{1680}'
    || ('\U{2000}' <= c <= '\U{200A}')
    || c == '\U{2028}' || c == '\U{2029}' || c == '\U{202F}' || c == '\U{205F}'
    || c == '\U{3000}' || c == '\U{FEFF}'
  }

  /** Every character of `s` is whitespace (vacuously so for the empty string). */
  predicate AllSpace(s: string)
  {
    forall k :: 0 <= k < |s| ==> IsSpace(s[k])
  }

  /** Drops the leading whitespace of `s`. */
  function TrimStart(s: string): (r: string)
    ensures |r| <= |s| && r == s[|s| - |r|..]
    ensures AllSpace(s[..|s| - |r|])
    ensures r == [] || !IsSpace(r[0])
    decreases |s|
  {
    if |s| > 0 && IsSpace(s[0]) then
      var r := TrimStart(s[1..]);
      AllSpaceCons(s, |s| - |r|);
      r
    else s
  }

  /** Drops the trailing whitespace of `s`. */
  function TrimEnd(s: string): (r: string)
    ensures |r| <= |s| && r == s[..|r|]
    ensures AllSpace(s[|r|..])
    ensures r == [] || !IsSpace(r[|r| - 1])
    decreases |s|
  {
    if |s| > 0 && IsSpace(s[|s| - 1]) then
      var r := TrimEnd(s[..|s| - 1]);
      AllSpaceSnoc(s, |r|);
      r
    else s
  }

  /** A whitespace head followed by whitespace up to `i` makes the whole prefix whitespace. */
  lemma AllSpaceCons(s: string, i: nat)
    requires 1 <= i <= |s| && IsSpace(s[0]) && AllSpace(s[1..][..i - 1])
    ensures AllSpace(s[..i])
  {
    forall k | 0 <= k < i ensures IsSpace(s[..i][k]) {
      if k > 0 { assert s[..i][k] == s[1..][..i - 1][k - 1]; }
    }
  }

  /** Whitespace from `i` on, followed by a whitespace last character, makes the whole suffix whitespace. */
  lemma AllSpaceSnoc(s: string, i: nat)
    requires i <= |s| - 1 && IsSpace(s[|s| - 1]) && AllSpace(s[..|s| - 1][i..])
    ensures AllSpace(s[i..])
  {
    forall k | 0 <= k < |s| - i ensures IsSpace(s[i..][k]) {
      if k < |s| - 1 - i { assert s[i..][k] == s[..|s| - 1][i..][k]; }
    }
  }

  /** Both ends trimmed: empty exactly for an all-whitespace input, otherwise no whitespace at either end. */
  function Trim(s: string): (r: string)
    ensures |r| <= |s|
    ensures r == [] <==> AllSpace(s)
    ensures r == [] || (!IsSpace(r[0]) && !IsSpace(r[|r| - 1]))
  {
    var t := TrimStart(s);
    TrimEndEmptyIff(t);
    if TrimEnd(t) == [] then
      assert AllSpace(s) by { AllSpaceConcat(s, |s| - |t|); }
      []
    else
      assert !IsSpace(s[|s| - |t|]) by { assert s[|s| - |t|] == t[0] == TrimEnd(t)[0]; }
      TrimEnd(t)
  }

  /** Trimming the end leaves nothing exactly when the string is all whitespace. */
  lemma TrimEndEmptyIff(t: string)
    ensures TrimEnd(t) == [] <==> AllSpace(t)
  {
    if TrimEnd(t) == [] {
      assert t[|TrimEnd(t)|..] == t;
    }
  }

  /** A string is all whitespace when both sides of a cut point are. */
  lemma AllSpaceConcat(s: string, i: nat)
    requires i <= |s| && AllSpace(s[..i]) && AllSpace(s[i..])
    ensures AllSpace(s)
  {
    forall k | 0 <= k < |s| ensures IsSpace(s[k]) {
      if k < i { assert s[k] == s[..i][k]; } else { assert s[k] == s[i..][k - i]; }
    }
  }

  /** The trimmed string is a slice of the input with only whitespace cut off either end. */
  lemma TrimIsSlice(s: string)
    ensures exists i, j :: 0 <= i <= j <= |s| && Trim(s) == s[i..j] && AllSpace(s[..i]) && AllSpace(s[j..])
  {
    var t := TrimStart(s);
    var r := TrimEnd(t);
    var i := |s| - |t|;
    var j := i + |r|;
    assert r == s[i..j];
    assert s[j..] == t[|r|..];
    assert 0 <= i <= j <= |s| && Trim(s) == s[i..j] && AllSpace(s[..i]) && AllSpace(s[j..]);
  }

  /** A string with no whitespace at either end is its own trim. */
  lemma TrimIdentity(s: string)
    requires s == [] || (!IsSpace(s[0]) && !IsSpace(s[|s| - 1]))
    ensures Trim(s) == s
  {
  }

  // ---------------------------------------------------------------------
  // Error messages
  // ---------------------------------------------------------------------

  const REQUIRED_FIELD := "This field is required"
  const TITLE_TOO_SHORT := "Title must be at least 3 characters long"
  const TITLE_TOO_LONG := "Title must be less than 100 characters long"
  const AUTHOR_TOO_SHORT := "Author name must be at least 2 characters long"
  const AUTHOR_TOO_LONG := "Author name must be less than 50 characters long"
  const SUMMARY_TOO_SHORT := "Summary must be at least 10 characters long"
  const SUMMARY_TOO_LONG := "Summary must be less than 300 characters long"
  const CONTENT_TOO_SHORT := "Content must be at least 50 characters long"
  const INVALID_CATEGORY := "Please select a valid category"

  // ---------------------------------------------------------------------
  // Per-field validators: the empty string means "no error"
  // ---------------------------------------------------------------------

  /** Title: required, then at least 3, then at most 100 characters, all on the trimmed value. */
  function ValidateTitle(title: string): (r: string)
    ensures r == "" <==> 3 <= |Trim(title)| <= 100
    ensures AllSpace(title) <==> r == REQUIRED_FIELD
    ensures 0 < |Trim(title)| < 3 ==> r == TITLE_TOO_SHORT
    ensures |Trim(title)| > 100 ==> r == TITLE_TOO_LONG
  {
    var trimmedTitle := Trim(title);
    if trimmedTitle == "" then REQUIRED_FIELD
    else if |trimmedTitle| < 3 then TITLE_TOO_SHORT
    else if |trimmedTitle| > 100 then TITLE_TOO_LONG
    else ""
  }

  /** Author: required, then at least 2, then at most 50 characters, on the trimmed value. */
  function ValidateAuthor(author: string): (r: string)
    ensures r == "" <==> 2 <= |Trim(author)| <= 50
    ensures AllSpace(author) <==> r == REQUIRED_FIELD
    ensures 0 < |Trim(author)| < 2 ==> r == AUTHOR_TOO_SHORT
    ensures |Trim(author)| > 50 ==> r == AUTHOR_TOO_LONG
  {
    var trimmedAuthor := Trim(author);
    if trimmedAuthor == "" then REQUIRED_FIELD
    else if |trimmedAuthor| < 2 then AUTHOR_TOO_SHORT
    else if |trimmedAuthor| > 50 then AUTHOR_TOO_LONG
    else ""
  }

  /** Summary: required, then at least 10, then at most 300 characters, on the trimmed value. */
  function ValidateSummary(summary: string): (r: string)
    ensures r == "" <==> 10 <= |Trim(summary)| <= 300
    ensures AllSpace(summary) <==> r == REQUIRED_FIELD
    ensures 0 < |Trim(summary)| < 10 ==> r == SUMMARY_TOO_SHORT
    ensures |Trim(summary)| > 300 ==> r == SUMMARY_TOO_LONG
  {
    var trimmedSummary := Trim(summary);
    if trimmedSummary == "" then REQUIRED_FIELD
    else if |trimmedSummary| < 10 then SUMMARY_TOO_SHORT
    else if |trimmedSummary| > 300 then SUMMARY_TOO_LONG
    else ""
  }

  /** No trimming here: only the empty string is missing. */
  function ValidateCategory(category: string): (r: string)
    ensures r == "" <==> IsCategory(category)
    ensures r == REQUIRED_FIELD <==> category == ""
    ensures r == INVALID_CATEGORY <==> category != "" && !IsCategory(category)
  {
    if category == "" then REQUIRED_FIELD
    else if !IsCategory(category) then INVALID_CATEGORY
    else ""
  }

  /** Content has a lower bound only. */
  function ValidateContent(content: string): (r: string)
    ensures r == "" <==> |Trim(content)| >= 50
    ensures AllSpace(content) <==> r == REQUIRED_FIELD
    ensures 0 < |Trim(content)| < 50 ==> r == CONTENT_TOO_SHORT
  {
    var trimmed := Trim(content);
    if trimmed == "" then REQUIRED_FIELD
    else if |trimmed| < 50 then CONTENT_TOO_SHORT
    else ""
  }

  /** The validator of a known field. */
  function FieldError(f: Field, value: string): string
  {
    match f
    case Title => ValidateTitle(value)
    case Author => ValidateAuthor(value)
    case Summary => ValidateSummary(value)
    case CategoryField => ValidateCategory(value)
    case Content => ValidateContent(value)
  }

  /** Dispatch by property name; a name that is not a field has no error. */
  function ValidateField(name: string, value: string): (r: string)
    ensures FieldNamed(name).None? ==> r == ""
    ensures forall f: Field :: FieldName(f) == name ==> r == FieldError(f, value)
  {
    if name == "title" then ValidateTitle(value)
    else if name == "author" then ValidateAuthor(value)
    else if name == "summary" then ValidateSummary(value)
    else if name == "category" then ValidateCategory(value)
    else if name == "content" then ValidateContent(value)
    else ""
  }

  /** Records `error` under `f` when it is non-empty; every other key is left alone. */
  function WithError(errors: map<Field, string>, f: Field, error: string): (r: map<Field, string>)
    ensures f in r <==> error != "" || f in errors
    ensures error != "" ==> r[f] == error
    ensures forall g :: g != f ==> (g in r <==> g in errors)
    ensures forall g :: g in r && (g != f || error == "") ==> g in errors && r[g] == errors[g]
  {
    if error != "" then errors[f := error] else errors
  }

  /**
   * Collects the error of every field of the draft: a key exactly for the
   * fields whose validator complains, holding that complaint.
   */
  function ValidateAllFields(data: Draft): (errors: map<Field, string>)
    ensures forall f: Field :: f in errors <==> FieldError(f, data.Get(f)) != ""
    ensures forall f :: f in errors ==> errors[f] == FieldError(f, data.Get(f))
  {
    var t, a, s, c, n := ValidateTitle(data.title), ValidateAuthor(data.author), ValidateSummary(data.summary),
                         ValidateCategory(data.category), ValidateContent(data.content);
    CollectSpec(t, a, s, c, n);
    FieldErrorsInOrder(data);
    Collect(t, a, s, c, n)
  }

  /** The five conditional insertions of the full-form check, in field order. */
  function Collect(titleError: string, authorError: string, summaryError: string,
                   categoryError: string, contentError: string): map<Field, string>
  {
    var e1 := WithError(map[], Title, titleError);
    var e2 := WithError(e1, Author, authorError);
    var e3 := WithError(e2, Summary, summaryError);
    var e4 := WithError(e3, CategoryField, categoryError);
    WithError(e4, Content, contentError)
  }

  /** The message among five that belongs to field `f`, in field order. */
  function MessageFor(f: Field, titleError: string, authorError: string, summaryError: string,
                      categoryError: string, contentError: string): string
  {
    match f
    case Title => titleError
    case Author => authorError
    case Summary => summaryError
    case CategoryField => categoryError
    case Content => contentError
  }

  /** `Collect` keys exactly the fields with a non-empty message, each holding its own message. */
  lemma CollectSpec(t: string, a: string, s: string, c: string, n: string)
    ensures forall f: Field :: f in Collect(t, a, s, c, n) <==> MessageFor(f, t, a, s, c, n) != ""
    ensures forall f: Field :: f in Collect(t, a, s, c, n) ==> Collect(t, a, s, c, n)[f] == MessageFor(f, t, a, s, c, n)
  {
    var errors := Collect(t, a, s, c, n);
    forall f: Field
      ensures f in errors <==> MessageFor(f, t, a, s, c, n) != ""
      ensures f in errors ==> errors[f] == MessageFor(f, t, a, s, c, n)
    {
      match f
      case Title =>
      case Author =>
      case Summary =>
      case CategoryField =>
      case Content =>
    }
  }

  /** Each field's validator message is the one `MessageFor` picks for that field. */
  lemma FieldErrorsInOrder(data: Draft)
    ensures forall f: Field :: FieldError(f, data.Get(f)) == MessageFor(f, ValidateTitle(data.title),
      ValidateAuthor(data.author), ValidateSummary(data.summary), ValidateCategory(data.category),
      ValidateContent(data.content))
  {
    forall f: Field ensures FieldError(f, data.Get(f)) == MessageFor(f, ValidateTitle(data.title),
      ValidateAuthor(data.author), ValidateSummary(data.summary), ValidateCategory(data.category),
      ValidateContent(data.content))
    {
      match f
      case Title =>
      case Author =>
      case Summary =>
      case CategoryField =>
      case Content =>
    }
  }

  /**
   * Step validity: steps 1-3 check their own fields, step 4 is the
   * conjunction of steps 1-3, and any other step number is invalid.
   */
  function ValidateStep(step: int, data: Draft): (valid: bool)
    ensures step == 1 ==> (valid <==> 3 <= |Trim(data.title)| <= 100 && 2 <= |Trim(data.author)| <= 50)
    ensures step == 2 ==> (valid <==> 10 <= |Trim(data.summary)| <= 300 && IsCategory(data.category))
    ensures step == 3 ==> (valid <==> |Trim(data.content)| >= 50)
    ensures step == 4 ==> (valid <==> ValidateStep(1, data) && ValidateStep(2, data) && ValidateStep(3, data))
    ensures !(1 <= step <= 4) ==> !valid
    decreases if step == 4 then 1 else 0
  {
    if step == 1 then ValidateTitle(data.title) == "" && ValidateAuthor(data.author) == ""
    else if step == 2 then ValidateSummary(data.summary) == "" && ValidateCategory(data.category) == ""
    else if step == 3 then ValidateContent(data.content) == ""
    else if step == 4 then ValidateStep(1, data) && ValidateStep(2, data) && ValidateStep(3, data)
    else false
  }

  /** The review step is valid exactly when the full error map is empty. */
  lemma ReviewStepIffNoErrors(data: Draft)
    ensures ValidateStep(4, data) <==> ValidateAllFields(data) == map[]
  {
    var errors := ValidateAllFields(data);
    ReviewStepByFieldErrors(data);
    if errors == map[] {
      assert Title !in errors && Author !in errors && Summary !in errors;
      assert CategoryField !in errors && Content !in errors;
    } else {
      var f :| f in errors;
      assert FieldError(f, data.Get(f)) != "";
    }
  }

  /** The review step is valid exactly when no field's validator complains. */
  lemma ReviewStepByFieldErrors(data: Draft)
    ensures ValidateStep(4, data) <==>
      && FieldError(Title, data.Get(Title)) == "" && FieldError(Author, data.Get(Author)) == ""
      && FieldError(Summary, data.Get(Summary)) == "" && FieldError(CategoryField, data.Get(CategoryField)) == ""
      && FieldError(Content, data.Get(Content)) == ""
  {
    assert ValidateStep(1, data) <==> ValidateTitle(data.title) == "" && ValidateAuthor(data.author) == "";
    assert ValidateStep(2, data) <==> ValidateSummary(data.summary) == "" && ValidateCategory(data.category) == "";
    assert ValidateStep(3, data) <==> ValidateContent(data.content) == "";
  }

  /** Whitespace-only input is a missing value for every trimmed field. */
  lemma WhitespaceIsRequired(f: Field, value: string)
    requires f != CategoryField && AllSpace(value)
    ensures ValidateField(FieldName(f), value) == REQUIRED_FIELD
  {
  }

  /** The category is not trimmed: a blank but non-empty category is invalid, not missing. */
  lemma BlankCategoryIsInvalid()
    ensures AllSpace(" ") && ValidateField("category", " ") == INVALID_CATEGORY
  {
  }
}
