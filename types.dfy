/**
 * The blog wizard's data model: categories, the draft the wizard edits,
 * the persisted post, a partial draft used by updates and the step record
 * shown in the wizard's progress bar.
 */
module BlogTypes {

  datatype Option<+T> = None | Some(value: T)

  datatype Result<+T, +E> = Ok(value: T) | Err(error: E)

  /** The closed set of blog categories. */
  datatype Category = Tech | Lifestyle | Business

  /** The wire name of a category, as it appears in drafts and posts. */
  function CategoryName(c: Category): string
  {
    match c
    case Tech => "Tech"
    case Lifestyle => "Lifestyle"
    case Business => "Business"
  }

  /** Parses a raw category string: only the three exact names are members. */
  function ParseCategory(s: string): (r: Option<Category>)
    ensures r.Some? ==> CategoryName(r.value) == s
    ensures r.None? <==> s != "Tech" && s != "Lifestyle" && s != "Business"
  {
    if s == "Tech" then Some(Tech)
    else if s == "Lifestyle" then Some(Lifestyle)
    else if s == "Business" then Some(Business)
    else None
  }

  /** A raw string is a category iff it is one of the three names. */
  predicate IsCategory(s: string)
  {
    ParseCategory(s).Some?
  }

  lemma CategoryRoundTrip(c: Category)
    ensures ParseCategory(CategoryName(c)) == Some(c)
    ensures IsCategory(CategoryName(c))
    ensures CategoryName(c) != ""
  {
  }

  /** The five user-editable fields of a post. */
  datatype Field = Title | Author | Summary | CategoryField | Content

  const AllFields: seq<Field> := [Title, Author, Summary, CategoryField, Content]

  /** The property name of a field in the draft record. */
  function FieldName(f: Field): string
  {
    match f
    case Title => "title"
    case Author => "author"
    case Summary => "summary"
    case CategoryField => "category"
    case Content => "content"
  }

  /** Resolves a property name to a field, if it names one. */
  function FieldNamed(name: string): (r: Option<Field>)
    ensures r.Some? ==> FieldName(r.value) == name
    ensures forall f: Field :: FieldName(f) == name ==> r == Some(f)
  {
    if name == "title" then Some(Title)
    else if name == "author" then Some(Author)
    else if name == "summary" then Some(Summary)
    else if name == "category" then Some(CategoryField)
    else if name == "content" then Some(Content)
    else None
  }

  /**
   * The wizard's draft. The category is kept as a raw string: the initial
   * draft casts the empty string into the category type, so at run time
   * any string can sit there.
   */
  datatype Draft = Draft(title: string, author: string, summary: string, category: string, content: string)
  {
    /** The value of one field of the draft. */
    function Get(f: Field): string
    {
      match f
      case Title => title
      case Author => author
      case Summary => summary
      case CategoryField => category
      case Content => content
    }
  }

  /** An update payload: each field is either supplied or absent. */
  datatype PartialDraft = PartialDraft(
    title: Option<string>, author: Option<string>, summary: Option<string>,
    category: Option<string>, content: Option<string>)
  {
    function Get(f: Field): Option<string>
    {
      match f
      case Title => title
      case Author => author
      case Summary => summary
      case CategoryField => category
      case Content => content
    }
  }

  /** A full draft seen as a partial one in which every field is supplied. */
  function AsPartial(d: Draft): (p: PartialDraft)
    ensures forall f: Field :: p.Get(f) == Some(d.Get(f))
  {
    PartialDraft(Some(d.title), Some(d.author), Some(d.summary), Some(d.category), Some(d.content))
  }

  /**
   * A persisted post: the five draft fields plus an id and a creation time
   * (milliseconds since the epoch). The category is a raw string because an
   * update may store a string outside the enumeration.
   */
  datatype Post = Post(
    id: string, title: string, author: string, summary: string,
    category: string, content: string, createdAt: int)
  {
    /** The draft fields of a post. */
    function Fields(): Draft
    {
      Draft(title, author, summary, category, content)
    }
  }

  /** One entry of the wizard's step list. */
  datatype WizardStep = WizardStep(id: int, title: string, isValid: bool, isCompleted: bool)

  /** Why a store refused to create a post. */
  datatype StoreError = CategoryRequired | InvalidCategory

  /** The message of the error a store throws when it refuses a category. */
  function StoreErrorMessage(e: StoreError): string
  {
    match e
    case CategoryRequired => "Category is required"
    case InvalidCategory => "Invalid category"
  }

  /**
   * The category guard shared by both stores' create operations: an empty
   * category is missing, any other string outside the enumeration is invalid.
   */
  function CheckCategory(s: string): (r: Result<Category, StoreError>)
    ensures r.Ok? <==> IsCategory(s)
    ensures r.Ok? ==> CategoryName(r.value) == s
    ensures r == Err(CategoryRequired) <==> s == ""
    ensures r.Err? ==> StoreErrorMessage(r.error) == if s == "" then "Category is required" else "Invalid category"
  {
    if s == "" then Err(CategoryRequired)
    else match ParseCategory(s)
      case Some(c) => Ok(c)
      case None => Err(InvalidCategory)
  }
}
