# Blog wizard: validation, step navigation and post stores

This project is a Dafny model of the core of a multi-step blog-post wizard.
An author fills in five fields over three steps and reviews them on a fourth
step. The wizard then creates a new post, or updates the post being edited,
in a post store. The model covers these parts:

- `BlogTypes` (`types.dfy`): categories, fields, the draft, the partial
  draft used by updates, the post, the step record, and the category guard
  that both stores apply on create.
- `Validation` (`validation.dfy`): the hand-written validators. A value is
  trimmed with the ECMAScript whitespace set, then checked for missing, too
  short and too long, in that order. Also covers the name dispatch, the
  full error map and step validity.
- `WizardSchema` (`schema.dfy`): the declarative schema the form library
  uses. Its length checks run on the raw value and trimming is only an
  output transform. Also covers the step-to-fields table and step
  validation with its fallback for steps that own no fields. Lemmas pin
  down where the two rule sets agree and where they do not.
- `StepValidation` (`step_validation.dfy`): the navigation permission
  check, step errors, touched fields, validation of all steps up to a
  given one, and the per-step summary.
- `StepNavigation` (`step_navigation.dfy`): the navigation hook as a
  class. It holds the current step, the step list and the watched form
  values, and provides the guarded `Next`, the unguarded `Previous` and
  the permission-checked `GoTo`.
- `FormValidation` (`form_validation.dfy`): the per-field error map as a
  class. A field validation sets or deletes one key; a step validation
  clears the step's keys and then records the step's messages.
- `PostOps` (`posts.dfy`): the list operations both stores share: find the
  first post by id, merge an update payload into a post, filter out by id,
  and build a new post.
- `LocalStorage` (`storage.dfy`): the module-level store. It keeps an
  in-memory copy, an availability flag that is cleared for good by the
  first backend read or write that throws, and the backend text cell.
- `BlogStore` (`blog_store.dfy`): the store the wizard saves through, as
  a class over one list of posts.
- `WizardForm` (`wizard_form.dfy`): the initial draft, the default values,
  and the submit decision.

Things the environment decides are parameters of the operation that meets
them:

- whether a backend read, write or remove throws (`readFails`,
  `writeFails`, `removeFails`);
- whether the start-up availability probe succeeds;
- the generated post id and the creation time (in milliseconds).

Serialising and parsing the post list are an exact pair. A backend text that
does not parse as a post list gives the empty list. The empty text counts as
"no data", because the store tests the text for truthiness.

Behaviour of the code worth knowing, which the model follows:

- An update writes every supplied field, including a category outside the
  three names. The category check on the update path only re-assigns the
  value already spread into the payload (`PostOps.CategoryGuard`,
  `PostOps.UpdateWritesInvalidCategory`). Stored posts can therefore carry
  an invalid category. `Post.category` is a raw string for that reason.
- The hand-written category validator does not trim. A blank, non-empty
  category is reported as invalid, not as missing
  (`Validation.BlankCategoryIsInvalid`).
- Step validity differs between the two rule sets:
  - the hand-written rules reject step numbers outside 1 to 4;
  - the schema treats any step without fields as "steps 1 to 3 valid";
  - the error-map hook's own table gives step 4 all five fields.
- Clearing the module store when the backend remove throws empties memory
  but keeps the backend cell and the availability flag. The next read
  brings the stored posts back (`LocalStorage.Store.ClearAllBlogPosts`).

## Model

| member | source | states |
|---|---|---|
| BlogTypes.ParseCategory | src/types/blog.ts:11 | a string is a category exactly when it is one of the three names, and parsing inverts naming |
| BlogTypes.CategoryRoundTrip | src/types/blog.ts:11 | every category's name parses back to that category and is non-empty |
| BlogTypes.FieldNamed | src/types/blog.ts:13-19 | a property name resolves to the one field with that name, and to nothing otherwise |
| BlogTypes.AsPartial | src/types/blog.ts:13-19 | a full draft seen as an update payload supplies every field with its own value |
| BlogTypes.CheckCategory | src/utils/storage.ts:106-113 | the create guard accepts exactly the three names; the empty string is "required", any other string "invalid", each refusal carrying the thrown message |
| Validation.TrimStart | src/utils/validation.ts:18 | the result is a suffix of the input, what was dropped is whitespace, and it starts with a non-space |
| Validation.TrimEnd | src/utils/validation.ts:18 | the result is a prefix of the input, what was dropped is whitespace, and it ends with a non-space |
| Validation.Trim | src/utils/validation.ts:18 | trimming is empty exactly for all-whitespace input and leaves no whitespace at either end |
| Validation.TrimIsSlice | src/utils/validation.ts:18 | the trimmed value is a slice of the input with only whitespace cut on both sides |
| Validation.TrimIdentity | src/utils/validation.ts:18 | a value with no whitespace at either end is its own trim |
| Validation.ValidateTitle | src/utils/validation.ts:17-33 | valid iff 3 ≤ trimmed length ≤ 100; all-whitespace iff "required"; too short and too long messages on their ranges |
| Validation.ValidateAuthor | src/utils/validation.ts:35-51 | valid iff 2 ≤ trimmed length ≤ 50, with "required", too short and too long on their ranges |
| Validation.ValidateSummary | src/utils/validation.ts:53-69 | valid iff 10 ≤ trimmed length ≤ 300, with "required", too short and too long on their ranges |
| Validation.ValidateCategory | src/utils/validation.ts:71-81 | valid iff one of the three names; "required" iff empty; "invalid" for any other string, untrimmed |
| Validation.ValidateContent | src/utils/validation.ts:83-95 | valid iff trimmed length ≥ 50, with no upper bound; "required" iff all-whitespace |
| Validation.ValidateField | src/utils/validation.ts:97-112 | a field's name dispatches to that field's validator; an unknown name has no error |
| Validation.WithError | src/utils/validation.ts:118 | a non-empty message is recorded under its field; every other key is unchanged |
| Validation.CollectSpec | src/utils/validation.ts:114-133 | the five conditional insertions key exactly the fields with a non-empty message, each holding its own |
| Validation.ValidateAllFields | src/utils/validation.ts:114-133 | the error map has a key exactly for the fields whose validator complains, holding that complaint |
| Validation.ValidateStep | src/utils/validation.ts:135-148 | steps 1 to 3 hold iff their fields' trimmed-length and category rules hold; step 4 is their conjunction; any other step is false |
| Validation.ReviewStepIffNoErrors | src/utils/validation.ts:114-148 | the review step is valid exactly when the full error map is empty |
| Validation.ReviewStepByFieldErrors | src/utils/validation.ts:135-148 | the review step is valid exactly when none of the five validators complains |
| Validation.WhitespaceIsRequired | src/utils/validation.ts:17-22 | for every trimmed field, whitespace-only input gives "required" |
| Validation.BlankCategoryIsInvalid | src/utils/validation.ts:71-81 | a blank non-empty category is "invalid", not "required" |
| WizardSchema.FieldAccepted | src/utils/wizardFormSchema.ts:2-29 | the schema accepts raw lengths 3-100, 2-50, 10-300 and ≥ 50, and exactly the three category names |
| WizardSchema.ParseString | src/utils/wizardFormSchema.ts:3-7 | a string passes iff its raw length passes, and the output is then the trimmed value |
| WizardSchema.ParseForm | src/utils/wizardFormSchema.ts:2-29 | the whole form parses iff every field is accepted, and the output has its strings trimmed |
| WizardSchema.StepFields | src/utils/wizardFormSchema.ts:33-42 | steps 1, 2 and 3 own their fields; every other step number owns none |
| WizardSchema.ValidateStepFields | src/utils/wizardFormSchema.ts:44-63 | steps 1 to 3 hold iff each of their fields is accepted; a step without fields falls back to steps 1 to 3 together |
| WizardSchema.FirstThreeStepsIffWholeSchema | src/utils/wizardFormSchema.ts:44-63 | steps 1 to 3 together accept exactly the drafts the whole schema accepts |
| WizardSchema.FieldRulesAgreeOnTrimmedValue | src/utils/wizardFormSchema.ts:2-29 | on a value without surrounding whitespace, the schema and the validator judge a field alike |
| WizardSchema.StepRulesAgreeOnTrimmedDraft | src/utils/wizardFormSchema.ts:44-63 | on a draft without surrounding whitespace, both rule sets judge steps 1 to 4 alike |
| WizardSchema.MetadataRulesAgree | src/utils/wizardFormSchema.ts:34 | both rule sets judge step 1 alike on trimmed title and author |
| WizardSchema.SummaryRulesAgree | src/utils/wizardFormSchema.ts:35 | both rule sets judge step 2 alike on a trimmed summary |
| WizardSchema.ContentRulesAgree | src/utils/wizardFormSchema.ts:36 | both rule sets judge step 3 alike on trimmed content |
| WizardSchema.ReviewRulesAgree | src/utils/wizardFormSchema.ts:47-51 | both rule sets define step 4 as steps 1 to 3 together |
| WizardSchema.BlankTitleDisagreement | src/utils/wizardFormSchema.ts:3-7 | a blank title passes the raw-length schema but is "required" for the validator |
| WizardSchema.PaddedTitleDisagreement | src/utils/wizardFormSchema.ts:3-7 | a title of 101 raw characters whose trim has 3 is refused only by the schema |
| WizardSchema.TrimOfPadded | src/utils/wizardFormSchema.ts:7 | trimming a string padded with whitespace after a non-blank prefix yields the prefix |
| WizardSchema.UnknownStepsDisagree | src/utils/wizardFormSchema.ts:40-51 | outside 1 to 4 the validator rejects, while the schema falls back to steps 1 to 3 |
| StepValidation.CanNavigateToStep | src/utils/stepValidation.ts:4-26 | allowed iff the target is in range and either not ahead of the current step or every earlier step validates |
| StepValidation.GetStepErrors | src/utils/stepValidation.ts:28-43 | keys are exactly the step's fields that carry a non-empty message, with that message |
| StepValidation.StepHasErrors | src/utils/stepValidation.ts:45-51 | true iff some field of the step carries a message |
| StepValidation.TouchedAmong | src/utils/stepValidation.ts:60 | keeps exactly the touched fields, and keeps all of them iff every field is touched |
| StepValidation.GetStepTouchedFields | src/utils/stepValidation.ts:53-61 | the touched fields of the step, and only those |
| StepValidation.IsStepTouched | src/utils/stepValidation.ts:63-71 | true iff every field of the step is touched, so always true for a step without fields |
| StepValidation.TouchedIffAllKept | src/utils/stepValidation.ts:53-71 | a step is touched exactly when filtering its fields by "touched" keeps them all |
| StepValidation.ValidateStepsUpTo | src/utils/stepValidation.ts:73-86 | true iff steps 1 to the target all validate; true for targets below 1 |
| StepValidation.StepsThroughFourIffWholeSchema | src/hooks/useWizardForm.ts:33-34 | steps 1 to 4 all validate exactly when the whole schema accepts the draft |
| StepValidation.GetStepValidationSummary | src/utils/stepValidation.ts:88-104 | one row per step 1 to the total, carrying that step's validity, errors and touched state |
| StepNavigation.Navigator.constructor | src/hooks/useStepNavigation.ts:6-11 | the session starts at step 1 with the four initial steps, none valid or completed |
| StepNavigation.Navigator.StepValidationStatus | src/hooks/useStepNavigation.ts:43-50 | a status entry exactly for steps 1 to the total, each the step's schema validity |
| StepNavigation.Navigator.SetValue | src/hooks/useStepNavigation.ts:37-41 | the watched value of one field changes; the other fields keep theirs |
| StepNavigation.Navigator.SyncSteps | src/hooks/useStepNavigation.ts:52-60 | each step's valid and completed flags become its memoised validity; ids and titles stay |
| StepNavigation.Navigator.CanNavigateToStep | src/hooks/useStepNavigation.ts:62-78 | allowed iff in range and either not ahead or every earlier step's memoised status holds |
| StepNavigation.Navigator.Next | src/hooks/useStepNavigation.ts:80-86 | advances by exactly one iff the current step is valid and not the last; keeps 1 ≤ step ≤ total |
| StepNavigation.Navigator.Previous | src/hooks/useStepNavigation.ts:88-92 | goes back by exactly one iff not at step 1; keeps 1 ≤ step ≤ total |
| StepNavigation.Navigator.GoTo | src/hooks/useStepNavigation.ts:94-98 | moves to the target iff navigation there is allowed, and otherwise stays; keeps 1 ≤ step ≤ total |
| StepNavigation.Navigator.CanGoNext | src/hooks/useStepNavigation.ts:100-102 | true iff the current step validates against the schema |
| StepNavigation.Navigator.CanGoBack | src/hooks/useStepNavigation.ts:104-106 | in a valid state, true iff the current step is not the first |
| StepNavigation.Navigator.IsLastStep | src/hooks/useStepNavigation.ts:108-110 | in a valid state, true iff no step lies beyond the current one |
| StepNavigation.Navigator.CanNavigateAgreesWithHelper | src/utils/stepValidation.ts:4-26 | the hook's memoised check agrees with the stand-alone helper on the same values |
| FormValidation.StepFieldsOf | src/hooks/useFormValidation.ts:60-72 | agrees with the schema table on steps 1 to 3, gives all five fields for step 4, and none otherwise |
| FormValidation.SetOrClear | src/hooks/useFormValidation.ts:11-19 | a non-empty error is stored under the field, an empty one deletes it; no other key changes |
| FormValidation.ApplyStepErrors | src/hooks/useFormValidation.ts:28-43 | the step's keys are dropped, non-empty step errors are written, and every other entry is kept |
| FormValidation.DeleteFields | src/hooks/useFormValidation.ts:31-34 | exactly the listed keys are removed; the rest keep their values |
| FormValidation.RecordNonEmpty | src/hooks/useFormValidation.ts:36-40 | every non-empty step error is written over the map; everything else is kept |
| FormValidation.ReplaceStepErrors | src/hooks/useFormValidation.ts:28-43 | deleting then recording yields exactly the intended step update |
| FormValidation.FieldErrorMap.constructor | src/hooks/useFormValidation.ts:6 | the error map starts empty |
| FormValidation.FieldErrorMap.ValidateSingleField | src/hooks/useFormValidation.ts:8-22 | returns the field's validator message, and sets or deletes that field's key only |
| FormValidation.FieldErrorMap.ValidateStepData | src/hooks/useFormValidation.ts:24-46 | returns the step's validity and replaces the step's keys with its non-empty errors |
| FormValidation.FieldErrorMap.ClearErrors | src/hooks/useFormValidation.ts:47-49 | the error map becomes empty |
| PostOps.NewPost | src/utils/storage.ts:115-124 | a new post carries the draft's five fields, the given id and the creation time |
| PostOps.FindIndex | src/utils/storage.ts:141 | the first index carrying the id, or -1 exactly when no post carries it |
| PostOps.Find | src/utils/storage.ts:134-137 | nothing exactly when no post carries the id; otherwise a listed post with that id |
| PostOps.FindIsFirstMatch | src/stores/blogStore.ts:80-83 | lookup returns the first post carrying the id |
| PostOps.FindAfterAppend | src/stores/blogStore.ts:73-75 | after an append, earlier ids resolve as before and a new id resolves to the appended post |
| PostOps.RemoveId | src/utils/storage.ts:171 | keeps exactly the posts without the id; drops nothing exactly when none carries it |
| PostOps.HasIdCons | src/utils/storage.ts:171 | a list carries an id iff its head or its tail does |
| PostOps.RemoveIdIdempotent | src/stores/blogStore.ts:112-122 | removing by id a second time changes nothing |
| PostOps.NoMatchRemovesNothing | src/utils/storage.ts:173-175 | with no post carrying the id, filtering returns the list unchanged |
| PostOps.RemoveIdDistributes | src/utils/storage.ts:171 | filtering preserves order: it distributes over concatenation |
| PostOps.Overlay | src/utils/storage.ts:156-159 | each supplied field replaces the old value; absent fields keep it |
| PostOps.CategoryGuard | src/utils/storage.ts:149-154 | the update path's category check leaves the payload unchanged |
| PostOps.Merge | src/utils/storage.ts:147-159 | supplied fields overwrite, an invalid category included; id and creation time stay |
| PostOps.MergeIdempotent | src/stores/blogStore.ts:102-106 | merging the same payload twice equals merging it once |
| PostOps.MergeFullDraft | src/hooks/useWizardForm.ts:41-42 | merging a full draft replaces all five fields with the draft's |
| PostOps.UpdateWritesInvalidCategory | src/stores/blogStore.ts:93-106 | an update payload with category "Food" stores "Food", which is not a category |
| PostOps.AppendKeepsCategoriesValid | src/stores/blogStore.ts:73-75 | appending a post with a valid category keeps every category valid |
| PostOps.RemoveKeepsCategoriesValid | src/stores/blogStore.ts:114-120 | filtering posts keeps every category valid |
| PostOps.MergeAtKeepsCategoriesValid | src/stores/blogStore.ts:102-108 | an in-place merge keeps all categories valid iff the payload's category is absent or valid |
| LocalStorage.Serialize | src/utils/storage.ts:57-75 | serialised text is truthy and parses back to the same posts |
| LocalStorage.Deserialize | src/utils/storage.ts:64-75 | a text holding a post list parses back to that list; a text that does not parse as a post list takes the error path and gives the empty list |
| LocalStorage.Loaded | src/utils/storage.ts:77-92 | a read yields the parsed cell only when available, not throwing and truthy; a malformed cell gives no posts; otherwise memory |
| LocalStorage.Store.constructor | src/utils/storage.ts:5-6 | memory starts empty and the flag is the outcome of the start-up probe |
| LocalStorage.Store.GetFromLocalStorage | src/utils/storage.ts:24-36 | yields the cell only when flagged and not throwing; a throwing read clears the flag for good |
| LocalStorage.Store.SetToLocalStorage | src/utils/storage.ts:38-51 | writes iff flagged and not throwing; a throwing write clears the flag for good |
| LocalStorage.Store.GetAllBlogPosts | src/utils/storage.ts:77-92 | returns what a read yields, stores it as memory, and leaves memory agreeing with the backend |
| LocalStorage.Store.SaveBlogPosts | src/utils/storage.ts:94-103 | memory always becomes the list; the backend is written and true is returned iff flagged and the write succeeds |
| LocalStorage.Store.CreateBlogPost | src/utils/storage.ts:105-132 | a refused category changes nothing; otherwise the new post is appended to the list read and its id returned, the flag stays set only if neither read nor write threw, and a backend still flagged holds the new list |
| LocalStorage.Store.GetBlogPost | src/utils/storage.ts:134-137 | the first post with the id among those read; a throwing read clears the flag for good, and the backend is untouched |
| LocalStorage.Store.UpdateBlogPost | src/utils/storage.ts:139-167 | false and nothing saved for an unknown id; otherwise the first match is merged at its index and saved; the flag stays set only if no backend call threw, and a backend still flagged holds the saved list |
| LocalStorage.Store.DeleteBlogPost | src/utils/storage.ts:169-180 | removes every match; false iff none matched, in which case the backend is untouched; the flag stays set only if no backend call threw, and after a save a backend still flagged holds the filtered list |
| LocalStorage.Store.IsStorageAvailable | src/utils/storage.ts:182-184 | always reports storage available |
| LocalStorage.Store.IsLocalStorageWorking | src/utils/storage.ts:186-191 | reports the backend availability flag |
| LocalStorage.Store.ClearAllBlogPosts | src/utils/storage.ts:193-203 | memory becomes empty; the cell is removed unless the remove throws, in which case the next read returns the old posts |
| BlogStore.Store.constructor | src/stores/blogStore.ts:50 | the store starts with no posts |
| BlogStore.Store.AddPost | src/stores/blogStore.ts:52-78 | a refused category changes nothing; otherwise exactly one post is appended and its id returned; valid categories stay valid |
| BlogStore.Store.GetPost | src/stores/blogStore.ts:80-83 | the first post with the id, if any |
| BlogStore.Store.UpdatePost | src/stores/blogStore.ts:85-110 | false and no change for an unknown id; otherwise only the first match changes, by a merge at its index |
| BlogStore.Store.DeletePost | src/stores/blogStore.ts:112-122 | removes every match; false iff none matched; valid categories stay valid |
| BlogStore.Store.ClearAllPosts | src/stores/blogStore.ts:124-126 | the store becomes empty |
| BlogStore.Store.IsStorageAvailable | src/stores/blogStore.ts:128-130 | always reports storage available |
| WizardForm.DefaultValues | src/hooks/useWizardForm.ts:10-26 | each supplied field overrides the empty initial value; the others stay empty, category included |
| WizardForm.Session.constructor | src/hooks/useWizardForm.ts:18-28 | a session over four steps at step 1, watching the default values |
| WizardForm.Session.Submit | src/hooks/useWizardForm.ts:32-53 | refuses exactly the drafts the schema refuses, without touching the store; otherwise updates in edit mode or appends in create mode, returning the id; never passes on a store error |
| WizardForm.FieldAcceptedCategory | src/utils/wizardFormSchema.ts:21-23 | a draft the schema accepts carries one of the three category names |

## Left out

- Rendering, the wizard container, page routing and animation code are presentation only and are not part of this model.
- The form library's runtime (registration, watching, asynchronous field triggering) is replaced by the schema predicates. A submit's "trigger" is the whole-schema check, and the watched values are the navigator's `values` field.
- `getStepErrors` in `src/hooks/useFormValidation.ts:3` is imported from a module that does not define it. `FormValidation.FieldErrorMap.ValidateStepData` therefore takes the step's messages as a parameter.
- LocalStorage.Deserialize: a JSON array that this store did not write is modelled either as a serialised post list or as text that does not parse. The source would instead return that array's elements, whatever objects they are, with a `createdAt` converted to a date; such arbitrary objects are not modelled.
- JSON text and dates: serialising and parsing are an exact pair over an abstract text. Creation times are integers, and ISO-8601 conversion is not modelled.
- Id generation from the clock and a random number is a parameter. Neither store checks ids for uniqueness, and the model claims none.
- The store library's persistence middleware and rehydration for `src/stores/blogStore.ts` are not modelled. `BlogStore.Store` is the in-memory list only.
- The `=== undefined` initialisation branches in `src/utils/storage.ts:78,187` can never run, because the flag starts as a boolean. The probe's own test key is not modelled.
- Several browser tabs sharing one backend are not modelled: every operation runs alone.
- String lengths are counted in characters. The source counts UTF-16 code units, which differ only for characters outside the Basic Multilingual Plane.
- StepNavigation.Navigator.constructor: requires at least one step. The hook accepts any total, but every caller uses 4.
- Update payloads are fields that are present or absent. A present key holding `undefined` is not modelled.
- The asynchronous step check in `src/utils/stepValidation.ts:106-117` goes through the form library's trigger and is not modelled.
