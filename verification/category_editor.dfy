/**
 * The admin category editor, one page for creating a category and for
 * editing one: loading the stored category, the parent choice, the image
 * chosen either as a new file or from the media library, and the
 * multipart payload it submits.
 */
module CategoryEditor {
  import opened Wrappers
  import opened Http
  import opened Text
  import opened Toasts
  import MediaManager

  /** The form's fields. `imageUrl` is the path of an image already on the
      server; `None` stands for a JavaScript `undefined`. */
  datatype CategoryForm = CategoryForm(name: string, description: string, parentId: string, imageUrl: Option<string>)

  datatype Field = Name | Description | ParentId

  datatype Editor = Editor(
    form: CategoryForm,
    imageFile: Option<MediaManager.FileRef>,
    imagePreview: string,
    isMediaModalOpen: bool)

  /** The route's `:id` parameter: absent on the create page. */
  predicate IsEditMode(routeId: Option<string>) {
    routeId.Some? && routeId.value != ""
  }

  const BlankForm := CategoryForm("", "", "", Some(""))

  const Initial := Editor(BlankForm, None, "", false)

  /** The page shows a spinner until the stored category is in, which only
      happens in edit mode. */
  function InitiallyLoading(routeId: Option<string>): (r: bool)
    ensures r <==> IsEditMode(routeId)
  {
    IsEditMode(routeId)
  }

  /** The heading. */
  function Title(routeId: Option<string>, form: CategoryForm): (r: string)
    ensures IsEditMode(routeId) ==> r == "Editing: " + form.name
    ensures !IsEditMode(routeId) ==> r == "Create New Category"
  {
    if IsEditMode(routeId) then "Editing: " + form.name else "Create New Category"
  }

  // ------------------------------------------------------------ loading

  /** A category as `GET /api/admin/categories/{id}` returns it. */
  datatype StoredCategory = StoredCategory(name: string, description: string, parentId: Option<int>, imageUrl: Option<string>)

  /** `x || ''` for a stored parent id: no parent and id 0 both become "". */
  function ParentField(parentId: Option<int>): (r: string)
    ensures r == "" <==> parentId.None? || parentId.value == 0
    ensures r != "" ==> ToNumber(r) == Finite(parentId.value)
  {
    if parentId.None? || parentId.value == 0 then ""
    else
      ToNumberRoundTrip(Finite(parentId.value));
      NumberToString(Finite(parentId.value))
  }

  /** The form and preview a loaded category fills in: a stored image also
      becomes the preview, prefixed with the API base. */
  function Loaded(e: Editor, base: string, c: StoredCategory): (r: Editor)
    ensures r.form.name == c.name && r.form.description == c.description
    ensures r.form.parentId == ParentField(c.parentId)
    ensures c.imageUrl.Some? && c.imageUrl.value != "" ==>
      r.form.imageUrl == c.imageUrl && r.imagePreview == base + c.imageUrl.value
    ensures c.imageUrl.None? || c.imageUrl.value == "" ==>
      r.form.imageUrl == Some("") && r.imagePreview == e.imagePreview
    ensures r.imageFile == e.imageFile && r.isMediaModalOpen == e.isMediaModalOpen
  {
    var url := if c.imageUrl.Some? then c.imageUrl.value else "";
    var form := CategoryForm(c.name, c.description, ParentField(c.parentId), Some(url));
    e.(form := form, imagePreview := if url != "" then base + url else e.imagePreview)
  }

  /** What loading the stored category ends in: the editor, a toast, and the
      page navigated to. Without a route id nothing is fetched. */
  datatype LoadOutcome = LoadOutcome(editor: Editor, isPageLoading: bool, toast: Option<Toast>, navigate: Option<string>)

  function LoadDone(e: Editor, base: string, resp: Response<StoredCategory>): (r: LoadOutcome)
    ensures !r.isPageLoading
    ensures resp.Ok? ==> r == LoadOutcome(Loaded(e, base, resp.data), false, None, None)
    ensures resp.Err? ==>
      r.editor == e && r.toast == Some(ErrorToast("Failed to load category data.")) &&
      r.navigate == Some("/admin/categories")
  {
    match resp
    case Ok(c) => LoadOutcome(Loaded(e, base, c), false, None, None)
    case Err(_, _) => LoadOutcome(e, false, Some(ErrorToast("Failed to load category data.")), Some("/admin/categories"))
  }

  /** One entry of `GET /api/admin/categories/flat`. */
  datatype FlatCategory = FlatCategory(id: int, name: string)

  /** The categories offered as parents, and the toast when they cannot be had. */
  function CategoriesDone(resp: Response<seq<FlatCategory>>): (r: (seq<FlatCategory>, Option<Toast>))
    ensures resp.Ok? ==> r == (resp.data, None)
    ensures resp.Err? ==> r == ([], Some(ErrorToast("Could not load categories for parent selection.")))
  {
    match resp
    case Ok(cs) => (cs, None)
    case Err(_, _) => ([], Some(ErrorToast("Could not load categories for parent selection.")))
  }

  /** `Number(id)` of the route parameter; `Number(undefined)` is NaN. */
  function RouteNumber(routeId: Option<string>): NumberValue {
    if routeId.Some? then ToNumber(routeId.value) else NaN
  }

  /** The parent options: every category but the one being edited, in order. */
  function ParentOptions(cs: seq<FlatCategory>, routeId: Option<string>): (r: seq<FlatCategory>)
    ensures |r| <= |cs|
    ensures forall c :: c in r <==> c in cs && Finite(c.id) != RouteNumber(routeId)
  {
    if cs == [] then []
    else
      var rest := ParentOptions(cs[1..], routeId);
      if Finite(cs[0].id) != RouteNumber(routeId) then [cs[0]] + rest else rest
  }

  /** A category is never offered as its own parent. */
  lemma NotOwnParent(cs: seq<FlatCategory>, id: int)
    ensures forall c :: c in ParentOptions(cs, Some(NumberToString(Finite(id)))) ==> c.id != id
  {
    ToNumberRoundTrip(Finite(id));
  }

  /** On the create page every category is offered. */
  lemma {:induction false} CreateOffersAll(cs: seq<FlatCategory>)
    ensures ParentOptions(cs, None) == cs
  {
    if cs != [] {
      CreateOffersAll(cs[1..]);
    }
  }

  /** The value of the option for a category. */
  function OptionValue(c: FlatCategory): (r: string)
    ensures ParseInt(r) == Finite(c.id)
  {
    ParseIntRoundTrip(Finite(c.id));
    NumberToString(Finite(c.id))
  }

  // ------------------------------------------------------------ editing

  /** `handleChange`: one text field takes the typed value. */
  function Change(e: Editor, f: Field, value: string): (r: Editor)
    ensures f == Name ==> r.form == e.form.(name := value)
    ensures f == Description ==> r.form == e.form.(description := value)
    ensures f == ParentId ==> r.form == e.form.(parentId := value)
    ensures r.imageFile == e.imageFile && r.imagePreview == e.imagePreview && r.isMediaModalOpen == e.isMediaModalOpen
  {
    match f
    case Name => e.(form := e.form.(name := value))
    case Description => e.(form := e.form.(description := value))
    case ParentId => e.(form := e.form.(parentId := value))
  }

  /** `handleImageChange`: a chosen file replaces any library pick and is
      previewed through its object URL; closing the dialog without a file
      changes nothing. */
  function ChooseFile(e: Editor, file: Option<MediaManager.FileRef>, objectUrl: string): (r: Editor)
    ensures file.None? ==> r == e
    ensures file.Some? ==>
      r.imageFile == file && r.imagePreview == objectUrl && r.form == e.form.(imageUrl := Some(""))
  {
    if file.None? then e
    else e.(imageFile := file, imagePreview := objectUrl, form := e.form.(imageUrl := Some("")))
  }

  function OpenMediaModal(e: Editor): Editor {
    e.(isMediaModalOpen := true)
  }

  /** `handleSelectFromMedia` as written: it reads `file.imageUrl`, which a
      media file does not have. */
  function PickMediaAsWritten(e: Editor, base: string, file: MediaManager.MediaFile): (r: Editor)
    ensures r.form == e.form.(imageUrl := None)
    ensures r.imagePreview == base + "undefined"
    ensures r.imageFile.None? && !r.isMediaModalOpen
  {
    var url := MediaManager.ImageUrlProperty(file);
    Editor(e.form.(imageUrl := url), None, base + MediaManager.TemplateText(url), false)
  }

  /** The media pick reading the file's `url`: the picked path replaces any
      chosen file. */
  function PickMedia(e: Editor, base: string, file: MediaManager.MediaFile): (r: Editor)
    ensures r.form == e.form.(imageUrl := Some(file.url))
    ensures r.imagePreview == base + file.url
    ensures r.imageFile.None? && !r.isMediaModalOpen
  {
    Editor(e.form.(imageUrl := Some(file.url)), None, base + file.url, false)
  }

  /** At most one image source: a chosen file leaves no library path. */
  predicate OneImageSource(e: Editor) {
    e.imageFile.Some? ==> e.form.imageUrl == Some("")
  }

  lemma EditsKeepOneImageSource(e: Editor, f: Field, value: string, file: Option<MediaManager.FileRef>,
                                objectUrl: string, base: string, m: MediaManager.MediaFile,
                                c: StoredCategory)
    requires OneImageSource(e)
    ensures OneImageSource(Change(e, f, value))
    ensures OneImageSource(ChooseFile(e, file, objectUrl))
    ensures OneImageSource(PickMedia(e, base, m))
    ensures OneImageSource(OpenMediaModal(e))
    ensures e.imageFile.None? ==> OneImageSource(Loaded(e, base, c))
  {
  }

  // ------------------------------------------------------------ submitting

  /** The `category` part: `parent` is `{ id: parseInt(parentId, 10) }` when
      a parent is chosen and null otherwise. */
  datatype CategoryData = CategoryData(name: string, description: string, parent: Option<NumberValue>, imageUrl: Option<string>)

  /** The multipart body: the `category` part and the optional `image` part. */
  datatype Payload = Payload(category: CategoryData, image: Option<MediaManager.FileRef>)

  function BuildPayload(e: Editor): (p: Payload)
    ensures p.category.name == e.form.name && p.category.description == e.form.description
    ensures p.category.parent.None? <==> e.form.parentId == ""
    ensures p.category.parent.Some? ==> p.category.parent.value == ParseInt(e.form.parentId)
    ensures p.category.imageUrl == e.form.imageUrl
    ensures p.image == e.imageFile
  {
    var parent := if e.form.parentId != "" then Some(ParseInt(e.form.parentId)) else None;
    Payload(CategoryData(e.form.name, e.form.description, parent, e.form.imageUrl), e.imageFile)
  }

  datatype HttpVerb = Put | Post

  datatype Request = Request(verb: HttpVerb, path: string, body: Payload)

  /** `PUT /api/admin/categories/{id}` when editing, `POST /api/admin/categories` otherwise. */
  function SubmitRequest(routeId: Option<string>, e: Editor): (r: Request)
    ensures r.body == BuildPayload(e)
    ensures IsEditMode(routeId) ==> r.verb == Put && r.path == "/api/admin/categories/" + routeId.value
    ensures !IsEditMode(routeId) ==> r.verb == Post && r.path == "/api/admin/categories"
  {
    if IsEditMode(routeId) then Request(Put, "/api/admin/categories/" + routeId.value, BuildPayload(e))
    else Request(Post, "/api/admin/categories", BuildPayload(e))
  }

  /** The toast and, on success, the page navigated to. */
  function SubmitDone(routeId: Option<string>, resp: Response<()>): (r: (Toast, Option<string>))
    ensures resp.Ok? && IsEditMode(routeId) ==> r == (SuccessToast("Category updated successfully!"), Some("/admin/categories"))
    ensures resp.Ok? && !IsEditMode(routeId) ==> r == (SuccessToast("Category created successfully!"), Some("/admin/categories"))
    ensures resp.Err? ==> r == (ErrorToast(ErrorText(resp, "An error occurred.")), None)
  {
    match resp
    case Ok(_) =>
      var text := if IsEditMode(routeId) then "Category updated successfully!" else "Category created successfully!";
      (SuccessToast(text), Some("/admin/categories"))
    case Err(_, _) => (ErrorToast(ErrorText(resp, "An error occurred.")), None)
  }

  /** Choosing a parent from the list sends that category's id. */
  lemma ParentChoiceRoundTrip(e: Editor, c: FlatCategory)
    ensures BuildPayload(Change(e, ParentId, OptionValue(c))).category.parent == Some(Finite(c.id))
  {
  }

  /** Saving a loaded category unchanged keeps its parent and its image. */
  lemma UneditedSaveKeepsCategory(e: Editor, base: string, c: StoredCategory)
    requires e.imageFile.None?
    ensures var p := BuildPayload(Loaded(e, base, c));
      p.category.name == c.name && p.category.description == c.description &&
      p.image.None? &&
      (c.parentId.Some? && c.parentId.value != 0 ==> p.category.parent == Some(Finite(c.parentId.value))) &&
      (c.parentId.None? || c.parentId.value == 0 ==> p.category.parent.None?) &&
      (c.imageUrl.Some? ==> p.category.imageUrl == c.imageUrl)
  {
    if c.parentId.Some? && c.parentId.value != 0 {
      ParseIntRoundTrip(Finite(c.parentId.value));
    }
  }

  /** The editor as written loses a picked library image: the preview shows
      "<base>undefined" and the payload carries neither a path nor a file. */
  lemma MediaPickAsWrittenLosesImage(e: Editor, base: string, m: MediaManager.MediaFile)
    ensures var r := PickMediaAsWritten(OpenMediaModal(e), base, m);
      r.imagePreview == base + "undefined" &&
      BuildPayload(r).category.imageUrl.None? && BuildPayload(r).image.None?
  {
  }

  /** The corrected pick sends the library path, and no file, after any
      earlier choice. */
  lemma MediaPickSendsPath(e: Editor, base: string, m: MediaManager.MediaFile, file: Option<MediaManager.FileRef>, objectUrl: string)
    ensures var r := PickMedia(OpenMediaModal(ChooseFile(e, file, objectUrl)), base, m);
      r.imagePreview == base + m.url &&
      BuildPayload(r).category.imageUrl == Some(m.url) && BuildPayload(r).image.None?
  {
  }

  /** The page's life on an edit route: it starts behind the spinner; a
      loaded category ends the loading and heads the page with the loaded
      name; a failed load ends it too and leaves for the category list with
      the heading unchanged. On the create route there is no spinner and the
      heading never depends on the form. */
  lemma TitleAfterLoad(routeId: Option<string>, e: Editor, base: string, resp: Response<StoredCategory>, form: CategoryForm)
    ensures InitiallyLoading(routeId) <==> routeId.Some? && routeId.value != ""
    ensures IsEditMode(routeId) && resp.Ok? ==>
      Title(routeId, LoadDone(e, base, resp).editor.form) == "Editing: " + resp.data.name
    ensures resp.Err? ==>
      Title(routeId, LoadDone(e, base, resp).editor.form) == Title(routeId, e.form) &&
      LoadDone(e, base, resp).navigate == Some("/admin/categories")
    ensures !LoadDone(e, base, resp).isPageLoading
    ensures !IsEditMode(routeId) ==> !InitiallyLoading(routeId) && Title(routeId, form) == Title(routeId, e.form)
  {
  }

  /** The parent list after the categories request: on the create page every
      category that came back, on an edit page every one but the category
      itself, and after a failure none (with a toast). */
  lemma CategoriesFeedParentOptions(resp: Response<seq<FlatCategory>>, id: int)
    ensures resp.Ok? ==> ParentOptions(CategoriesDone(resp).0, None) == resp.data
    ensures resp.Ok? ==> forall c :: c in ParentOptions(CategoriesDone(resp).0, Some(NumberToString(Finite(id)))) <==>
      c in resp.data && c.id != id
    ensures resp.Err? ==> ParentOptions(CategoriesDone(resp).0, None) == [] && CategoriesDone(resp).1.Some?
  {
    if resp.Ok? {
      CreateOffersAll(resp.data);
      ToNumberRoundTrip(Finite(id));
    }
  }

  /** A submit's outcome table: the body does not depend on the mode; the
      request is a PUT exactly when a success says "updated"; the page is
      left exactly when the request succeeded; and a failure always has
      something to say. */
  lemma SubmitOutcomes(routeId: Option<string>, e: Editor, resp: Response<()>)
    ensures SubmitRequest(routeId, e).body == SubmitRequest(None, e).body
    ensures resp.Ok? ==>
      (SubmitRequest(routeId, e).verb == Put <==> SubmitDone(routeId, resp).0 == SuccessToast("Category updated successfully!"))
    ensures SubmitDone(routeId, resp).1.Some? <==> resp.Ok?
    ensures SubmitDone(routeId, resp).0.SuccessToast? <==> resp.Ok?
    ensures SubmitDone(routeId, resp).0.message != ""
  {
  }
}
