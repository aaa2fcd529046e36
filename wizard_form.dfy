/**
 * The wizard session: the initial draft, the default values built from an
 * optional partial draft, and the submit decision that validates the whole
 * draft and then creates a post or updates the one being edited.
 */
module WizardForm {
  import opened BlogTypes
  import opened PostOps
  import opened WizardSchema
  import StepValidation
  import StepNavigation
  import BlogStore

  /** The empty draft, with the empty string cast into the category. */
  const INITIAL_FORM_DATA: Draft := Draft("", "", "", "", "")

  /** The initial draft overridden field by field by whatever the caller supplied. */
  function DefaultValues(initialData: PartialDraft): (d: Draft)
    ensures forall f: Field :: d.Get(f) == if initialData.Get(f).Some? then initialData.Get(f).value else ""
  {
    Overlay(INITIAL_FORM_DATA, initialData)
  }

  /** Edit mode needs a truthy post id: present and non-empty. */
  predicate EditMode(postId: Option<string>)
  {
    postId.Some? && postId.value != ""
  }

  /** Why a submission was refused. */
  datatype SubmitError =
    | ValidationFailed        // "Form validation failed"
    | SaveFailed              // "Failed to save post"
    | Rethrown(e: StoreError) // an error thrown by the store, passed on

  class Session {
    /** The step navigation, which also holds the form's current values. */
    const nav: StepNavigation.Navigator
    const store: BlogStore.Store
    /** The post being edited, if any. */
    const postId: Option<string>

    /** A session over four steps, starting from the default values. */
    constructor (initialData: PartialDraft, postId: Option<string>, store: BlogStore.Store)
      ensures nav.Valid() && fresh(nav)
      ensures nav.values == DefaultValues(initialData) && nav.currentStep == 1 && nav.totalSteps == 4
      ensures this.store == store && this.postId == postId
    {
      nav := new StepNavigation.Navigator(DefaultValues(initialData), 4);
      this.store := store;
      this.postId := postId;
    }

    /**
     * Validates the whole draft, then updates the edited post or creates a
     * new one with `newId` and `createdAt`, and answers with the post's id.
     */
    method Submit(newId: string, createdAt: int) returns (r: Result<string, SubmitError>)
      modifies store`posts
      ensures var data := nav.values;
        && (r == Err(ValidationFailed) <==> ParseForm(data).None?)
        && (ParseForm(data).None? ==> store.posts == old(store.posts))
        && (ParseForm(data).Some? && EditMode(postId) ==>
              && (r == Ok(postId.value) <==> HasId(old(store.posts), postId.value))
              && (r != Ok(postId.value) ==> r == Err(SaveFailed) && store.posts == old(store.posts))
              && (r.Ok? ==> var i := FindIndex(old(store.posts), postId.value);
                    store.posts == old(store.posts)[i := Merge(old(store.posts)[i], AsPartial(data))]))
        && (ParseForm(data).Some? && !EditMode(postId) ==>
              && store.posts == old(store.posts) + [NewPost(newId, data, createdAt)]
              && r == if newId == "" then Err(SaveFailed) else Ok(newId))
      ensures !(r.Err? && r.error.Rethrown?)
    {
      var data := nav.values;
      var isFormValid := ParseForm(data).Some?;
      var allStepsValid := StepValidation.ValidateStepsUpTo(4, data);
      StepValidation.StepsThroughFourIffWholeSchema(data);
      if !isFormValid || !allStepsValid {
        return Err(ValidationFailed);
      }
      FieldAcceptedCategory(data);
      if EditMode(postId) {
        var updated := store.UpdatePost(postId.value, AsPartial(data));
        if !updated {
          return Err(SaveFailed);
        }
        return Ok(postId.value);
      } else {
        var created := store.AddPost(data, newId, createdAt);
        match created
        case Err(e) =>
          // The category guard cannot refuse a draft the schema accepted.
          assert false;
          return Err(Rethrown(e));
        case Ok(id) =>
          if id == "" {
            return Err(SaveFailed);
          }
          return Ok(id);
      }
    }
  }

  /** A draft the whole schema accepts carries one of the three category names. */
  lemma FieldAcceptedCategory(data: Draft)
    requires ParseForm(data).Some?
    ensures IsCategory(data.category)
  {
    assert FieldAccepted(CategoryField, data);
  }
}
