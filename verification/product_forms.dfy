/**
 * The admin product editors, "add" and "update": the editable list of
 * variants (add, remove, change a field, choose an image file, pick an
 * image from the media library) and the multipart payload sent on submit.
 * Form inputs are text, as the browser hands them over; the object URL of a
 * chosen file is a parameter, since the browser makes it up.
 */
module ProductForms {
  import opened Wrappers
  import opened Http
  import opened Text
  import opened Toasts
  import MediaManager
  import CategoryEditor

  // ---------------------------------------------------------------- data

  /** One variant as edited. `None` stands for null or undefined; an
      `imageUrl` of `Some("")` is the empty path of a fresh variant. */
  datatype VariantForm = VariantForm(
    id: Option<int>,
    color: string,
    size: string,
    price: string,
    stockQuantity: string,
    image: Option<MediaManager.FileRef>,
    clientImageUrl: Option<string>,
    imageUrl: Option<string>)

  /** The value held in the category field, and sent as `category.id`:
      the number loaded from the server, or the text of the select (the
      empty string before a choice). */
  datatype CategoryValue = LoadedId(id: int) | ChosenText(text: string)

  /** The product fields of both forms. */
  datatype ProductFields = ProductFields(name: string, description: string, brand: string, categoryId: CategoryValue)

  /** The text fields of a variant a form input can change. */
  datatype VariantField = Color | Size | Price | StockQuantity

  datatype ProductField = Name | Description | Brand | CategoryId

  /** The variant list, and which variant the open media picker is for. */
  datatype Editor = Editor(variants: seq<VariantForm>, isMediaModalOpen: bool, activeVariantIndex: Option<nat>)

  /** The variant both forms add: all fields empty, no image, no id. */
  const BlankVariant := VariantForm(None, "", "", "", "", None, None, Some(""))

  const BlankProduct := ProductFields("", "", "", ChosenText(""))

  /** The add form starts with exactly one blank variant and no picker. */
  function AddInitial(): (e: Editor)
    ensures e.variants == [BlankVariant] && !e.isMediaModalOpen && e.activeVariantIndex.None?
  {
    Editor([BlankVariant], false, None)
  }

  // ---------------------------------------------------------------- list edits

  /** `addVariant`: one blank variant at the end. */
  function AddVariant(vs: seq<VariantForm>): (r: seq<VariantForm>)
    ensures |r| == |vs| + 1 && r[..|vs|] == vs && r[|vs|] == BlankVariant
  {
    vs + [BlankVariant]
  }

  /** `removeVariant(index)`: the variant at that index goes, the others
      keep their order; an index out of range removes nothing. */
  function RemoveVariant(vs: seq<VariantForm>, index: int): (r: seq<VariantForm>)
    ensures 0 <= index < |vs| ==> |r| == |vs| - 1
    ensures 0 <= index < |vs| ==> forall j :: 0 <= j < index ==> r[j] == vs[j]
    ensures 0 <= index < |vs| ==> forall j :: index <= j < |r| ==> r[j] == vs[j + 1]
    ensures !(0 <= index < |vs|) ==> r == vs
  {
    if 0 <= index < |vs| then vs[..index] + vs[index + 1..] else vs
  }

  /** The remove button is shown only while there is more than one variant. */
  predicate RemoveOffered(vs: seq<VariantForm>) {
    |vs| > 1
  }

  /** So a form never loses its last variant through the buttons it shows,
      and adding then removing the new variant gives the list back. */
  lemma RemoveKeepsOneVariant(vs: seq<VariantForm>, index: int)
    requires RemoveOffered(vs)
    ensures |RemoveVariant(vs, index)| >= 1
    ensures RemoveVariant(AddVariant(vs), |vs|) == vs
  {
    assert AddVariant(vs)[..|vs|] == vs;
  }

  /** A text input of variant `index`: only that field of that variant changes. */
  function ChangeField(vs: seq<VariantForm>, index: nat, field: VariantField, value: string): (r: seq<VariantForm>)
    requires index < |vs|
    ensures |r| == |vs|
    ensures forall j :: 0 <= j < |vs| && j != index ==> r[j] == vs[j]
    ensures r[index].image == vs[index].image && r[index].imageUrl == vs[index].imageUrl && r[index].id == vs[index].id
    ensures field == Color ==> r[index] == vs[index].(color := value)
    ensures field == Size ==> r[index] == vs[index].(size := value)
    ensures field == Price ==> r[index] == vs[index].(price := value)
    ensures field == StockQuantity ==> r[index] == vs[index].(stockQuantity := value)
  {
    var v := vs[index];
    var v' := match field
      case Color => v.(color := value)
      case Size => v.(size := value)
      case Price => v.(price := value)
      case StockQuantity => v.(stockQuantity := value);
    vs[index := v']
  }

  /** `handleProductChange`: one product field. */
  function ChangeProductField(p: ProductFields, field: ProductField, value: string): (r: ProductFields)
    ensures field == Name ==> r == p.(name := value)
    ensures field == Description ==> r == p.(description := value)
    ensures field == Brand ==> r == p.(brand := value)
    ensures field == CategoryId ==> r == p.(categoryId := ChosenText(value))
  {
    match field
    case Name => p.(name := value)
    case Description => p.(description := value)
    case Brand => p.(brand := value)
    case CategoryId => p.(categoryId := ChosenText(value))
  }

  /** The preview of a chosen file: its object URL, or none when the file
      dialog was cancelled. */
  function FilePreview(file: Option<MediaManager.FileRef>, objectUrl: string): (r: Option<string>)
    ensures r.Some? <==> file.Some?
    ensures r.Some? ==> r.value == objectUrl
  {
    if file.Some? then Some(objectUrl) else None
  }

  /** The add form's file input: sets the file and its preview and clears
      the media path, so the file is what the variant will use. */
  function ChooseFileForNew(vs: seq<VariantForm>, index: nat, file: Option<MediaManager.FileRef>, objectUrl: string): (r: seq<VariantForm>)
    requires index < |vs|
    ensures |r| == |vs| && forall j :: 0 <= j < |vs| && j != index ==> r[j] == vs[j]
    ensures r[index] == vs[index].(image := file, clientImageUrl := FilePreview(file, objectUrl), imageUrl := Some(""))
  {
    vs[index := vs[index].(image := file, clientImageUrl := FilePreview(file, objectUrl), imageUrl := Some(""))]
  }

  /** The update form's file input: sets the file and its preview; the
      stored path stays, and the payload leaves it out while a file is set. */
  function ChooseFileForExisting(vs: seq<VariantForm>, index: nat, file: Option<MediaManager.FileRef>, objectUrl: string): (r: seq<VariantForm>)
    requires index < |vs|
    ensures |r| == |vs| && forall j :: 0 <= j < |vs| && j != index ==> r[j] == vs[j]
    ensures r[index] == vs[index].(image := file, clientImageUrl := FilePreview(file, objectUrl))
  {
    vs[index := vs[index].(image := file, clientImageUrl := FilePreview(file, objectUrl))]
  }

  // ---------------------------------------------------------------- media picker

  /** "Or Choose from Media Library" on variant `index`. */
  function OpenMediaModal(e: Editor, index: nat): (r: Editor)
    ensures r.isMediaModalOpen && r.activeVariantIndex == Some(index) && r.variants == e.variants
  {
    e.(activeVariantIndex := Some(index), isMediaModalOpen := true)
  }

  function CloseMediaModal(e: Editor): (r: Editor)
    ensures !r.isMediaModalOpen && r.activeVariantIndex.None? && r.variants == e.variants
  {
    e.(activeVariantIndex := None, isMediaModalOpen := false)
  }

  /** A picker that belongs to a variant of the list. */
  predicate PickerInRange(e: Editor) {
    e.activeVariantIndex.Some? ==> e.activeVariantIndex.value < |e.variants|
  }

  /** The add form's media pick as written: it reads `file.imageUrl`. */
  function PickMediaAsWritten(e: Editor, base: string, file: MediaManager.MediaFile): (r: Editor)
    requires PickerInRange(e)
    ensures e.activeVariantIndex.None? ==> r == e
    ensures e.activeVariantIndex.Some? ==> !r.isMediaModalOpen && r.activeVariantIndex.None?
    ensures e.activeVariantIndex.Some? ==>
      var i := e.activeVariantIndex.value;
      |r.variants| == |e.variants| && r.variants[i].imageUrl.None? &&
      r.variants[i].clientImageUrl == Some(base + "undefined") && r.variants[i].image.None?
  {
    match e.activeVariantIndex
    case None => e
    case Some(i) =>
      var v := e.variants[i].(imageUrl := MediaManager.ImageUrlProperty(file),
        clientImageUrl := Some(base + MediaManager.TemplateText(MediaManager.ImageUrlProperty(file))), image := None);
      CloseMediaModal(e.(variants := e.variants[i := v]))
  }

  /** The media pick reading the file's `url`, as the update form does: the
      picked path replaces the variant's image and the chosen file goes. */
  function PickMedia(e: Editor, base: string, file: MediaManager.MediaFile): (r: Editor)
    requires PickerInRange(e)
    ensures e.activeVariantIndex.None? ==> r == e
    ensures e.activeVariantIndex.Some? ==> !r.isMediaModalOpen && r.activeVariantIndex.None?
    ensures e.activeVariantIndex.Some? ==>
      var i := e.activeVariantIndex.value;
      |r.variants| == |e.variants| &&
      r.variants[i] == e.variants[i].(imageUrl := Some(file.url), clientImageUrl := Some(base + file.url), image := None) &&
      forall j :: 0 <= j < |e.variants| && j != i ==> r.variants[j] == e.variants[j]
  {
    match e.activeVariantIndex
    case None => e
    case Some(i) =>
      var v := e.variants[i].(imageUrl := Some(file.url), clientImageUrl := Some(base + file.url), image := None);
      CloseMediaModal(e.(variants := e.variants[i := v]))
  }

  // ---------------------------------------------------------------- payloads

  /** One entry of the `variants` part. */
  datatype VariantRecord = VariantRecord(
    id: Option<int>,
    color: string,
    size: string,
    price: string,
    stockQuantity: string,
    imageUrl: Option<string>)

  /** The `product` part: the fields plus `category: { id: categoryId }`. */
  datatype ProductData = ProductData(fields: ProductFields, categoryRef: CategoryValue)

  /** The three parts of the multipart request. */
  datatype Payload = Payload(product: ProductData, variants: seq<VariantRecord>, images: seq<MediaManager.FileRef>)

  function ProductPart(p: ProductFields): (d: ProductData)
    ensures d.fields == p && d.categoryRef == p.categoryId
  {
    ProductData(p, p.categoryId)
  }

  /** The chosen files of the variants, in variant order, skipping variants
      without one. */
  function ChosenFiles(vs: seq<VariantForm>): (fs: seq<MediaManager.FileRef>)
    ensures |fs| <= |vs|
  {
    if vs == [] then []
    else (if vs[0].image.Some? then [vs[0].image.value] else []) + ChosenFiles(vs[1..])
  }

  /** A file is uploaded exactly when some variant has it chosen. */
  lemma {:induction false} ChosenFilesMembers(vs: seq<VariantForm>)
    ensures forall f :: f in ChosenFiles(vs) <==> exists i :: 0 <= i < |vs| && vs[i].image == Some(f)
  {
    if vs != [] {
      ChosenFilesMembers(vs[1..]);
      assert forall i :: 1 <= i < |vs| ==> vs[i] == vs[1..][i - 1];
    }
  }

  lemma {:induction false} ChosenFilesConcat(a: seq<VariantForm>, b: seq<VariantForm>)
    ensures ChosenFiles(a + b) == ChosenFiles(a) + ChosenFiles(b)
  {
    if a == [] {
      assert a + b == b;
    } else {
      var head := if a[0].image.Some? then [a[0].image.value] else [];
      assert (a + b)[1..] == a[1..] + b;
      calc {
        ChosenFiles(a + b);
        head + ChosenFiles(a[1..] + b);
        { ChosenFilesConcat(a[1..], b); }
        head + (ChosenFiles(a[1..]) + ChosenFiles(b));
        (head + ChosenFiles(a[1..])) + ChosenFiles(b);
      }
    }
  }

  /** No variant with a file, no files. */
  lemma {:induction false} NoFileChosen(vs: seq<VariantForm>)
    requires forall i :: 0 <= i < |vs| ==> vs[i].image.None?
    ensures ChosenFiles(vs) == []
  {
    if vs != [] {
      NoFileChosen(vs[1..]);
    }
  }

  /** `v.imageUrl || null`. */
  function NonEmpty(x: Option<string>): (r: Option<string>)
    ensures r.Some? <==> x.Some? && x.value != ""
    ensures r.Some? ==> r == x
  {
    if x.Some? && x.value != "" then x else None
  }

  /** The add form's payload: one record per variant without id, an empty
      path sent as null, and the chosen files. */
  function NewProductPayload(p: ProductFields, vs: seq<VariantForm>): (r: Payload)
    ensures r.product == ProductPart(p)
    ensures |r.variants| == |vs|
    ensures forall i :: 0 <= i < |vs| ==>
      r.variants[i] == VariantRecord(None, vs[i].color, vs[i].size, vs[i].price, vs[i].stockQuantity, NonEmpty(vs[i].imageUrl))
    ensures r.images == ChosenFiles(vs)
  {
    Payload(ProductPart(p),
      seq(|vs|, i requires 0 <= i < |vs| =>
        VariantRecord(None, vs[i].color, vs[i].size, vs[i].price, vs[i].stockQuantity, NonEmpty(vs[i].imageUrl))),
      ChosenFiles(vs))
  }

  /** The update form's payload: each variant keeps its id, and its path is
      null exactly when a new file was chosen for it. */
  function ExistingProductPayload(p: ProductFields, vs: seq<VariantForm>): (r: Payload)
    ensures r.product == ProductPart(p)
    ensures |r.variants| == |vs|
    ensures forall i :: 0 <= i < |vs| ==>
      r.variants[i].id == vs[i].id && r.variants[i].color == vs[i].color && r.variants[i].size == vs[i].size &&
      r.variants[i].price == vs[i].price && r.variants[i].stockQuantity == vs[i].stockQuantity
    ensures forall i :: 0 <= i < |vs| ==> (r.variants[i].imageUrl.None? <==> vs[i].image.Some? || vs[i].imageUrl.None?)
    ensures forall i :: 0 <= i < |vs| && vs[i].image.None? ==> r.variants[i].imageUrl == vs[i].imageUrl
    ensures r.images == ChosenFiles(vs)
  {
    Payload(ProductPart(p),
      seq(|vs|, i requires 0 <= i < |vs| =>
        VariantRecord(vs[i].id, vs[i].color, vs[i].size, vs[i].price, vs[i].stockQuantity,
          if vs[i].image.Some? then None else vs[i].imageUrl)),
      ChosenFiles(vs))
  }

  // ---------------------------------------------------------------- loading

  /** A variant as the server returns it. */
  datatype StoredVariant = StoredVariant(id: int, color: string, size: string, price: string, stockQuantity: string, imageUrl: Option<string>)

  /** A product as the server returns it; `categoryId` is `category?.id`. */
  datatype StoredProduct = StoredProduct(
    name: string, description: string, brand: string, categoryId: Option<int>, variants: seq<StoredVariant>)

  /** A stored variant made editable: no new file, and the preview is the
      stored image when there is one. */
  function Editable(v: StoredVariant, base: string): (f: VariantForm)
    ensures f.id == Some(v.id) && f.image.None? && f.imageUrl == v.imageUrl
    ensures f.color == v.color && f.size == v.size && f.price == v.price && f.stockQuantity == v.stockQuantity
    ensures f.clientImageUrl.Some? <==> v.imageUrl.Some? && v.imageUrl.value != ""
    ensures f.clientImageUrl.Some? ==> f.clientImageUrl.value == base + v.imageUrl.value
  {
    VariantForm(Some(v.id), v.color, v.size, v.price, v.stockQuantity, None,
      if v.imageUrl.Some? && v.imageUrl.value != "" then Some(base + v.imageUrl.value) else None,
      v.imageUrl)
  }

  function LoadVariants(vs: seq<StoredVariant>, base: string): (r: seq<VariantForm>)
    ensures |r| == |vs| && forall i :: 0 <= i < |vs| ==> r[i] == Editable(vs[i], base)
  {
    seq(|vs|, i requires 0 <= i < |vs| => Editable(vs[i], base))
  }

  /** The product fields: `category?.id || ''`, so the category number as
      loaded, or '' when the product has none (or id 0). */
  function LoadFields(p: StoredProduct): (f: ProductFields)
    ensures f.name == p.name && f.description == p.description && f.brand == p.brand
    ensures f.categoryId.LoadedId? <==> p.categoryId.Some? && p.categoryId.value != 0
    ensures f.categoryId.LoadedId? ==> Some(f.categoryId.id) == p.categoryId
    ensures f.categoryId.ChosenText? ==> f.categoryId.text == ""
  {
    if p.categoryId.Some? && p.categoryId.value != 0 then
      ProductFields(p.name, p.description, p.brand, LoadedId(p.categoryId.value))
    else ProductFields(p.name, p.description, p.brand, ChosenText(""))
  }

  /** Saving an unedited product sends every stored variant back as it was
      loaded: same id, fields and image path, and no files. The category
      goes back as the number it was loaded as, not as text. */
  lemma UneditedSaveRoundTrip(p: StoredProduct, base: string)
    ensures var r := ExistingProductPayload(LoadFields(p), LoadVariants(p.variants, base));
      (p.categoryId.Some? && p.categoryId.value != 0 ==> r.product.categoryRef == LoadedId(p.categoryId.value))
    ensures var r := ExistingProductPayload(LoadFields(p), LoadVariants(p.variants, base));
      |r.variants| == |p.variants| && r.images == [] &&
      forall i :: 0 <= i < |p.variants| ==>
        r.variants[i] == VariantRecord(Some(p.variants[i].id), p.variants[i].color, p.variants[i].size,
          p.variants[i].price, p.variants[i].stockQuantity, p.variants[i].imageUrl)
  {
    NoFileChosen(LoadVariants(p.variants, base));
  }

  /** The update page's loaded state: the product fields (null before a
      load), the variants, the category choices and the page spinner. */
  datatype UpdatePage = UpdatePage(
    product: Option<ProductFields>,
    variants: seq<VariantForm>,
    categories: seq<CategoryEditor.FlatCategory>,
    isPageLoading: bool)

  const UpdateInitial := UpdatePage(None, [], [], true)

  /** What the page's initial fetch ends in: the page, a toast, and the
      route navigated to. */
  datatype LoadOutcome = LoadOutcome(page: UpdatePage, toast: Option<Toast>, navigate: Option<string>)

  /** The product and the flat category list are fetched together; if
      either request fails, nothing is stored, a toast is shown and the
      admin goes back to the product list. The spinner stops either way. */
  function LoadDone(pg: UpdatePage, base: string, productRes: Response<StoredProduct>,
                    categoriesRes: Response<seq<CategoryEditor.FlatCategory>>): (r: LoadOutcome)
    ensures !r.page.isPageLoading
    ensures productRes.Ok? && categoriesRes.Ok? ==>
      r.page.product == Some(LoadFields(productRes.data)) &&
      r.page.variants == LoadVariants(productRes.data.variants, base) &&
      r.page.categories == categoriesRes.data && r.toast.None? && r.navigate.None?
    ensures productRes.Err? || categoriesRes.Err? ==>
      r.page == pg.(isPageLoading := false) &&
      r.toast == Some(ErrorToast("Failed to fetch product data.")) && r.navigate == Some("/admin/products")
  {
    if productRes.Ok? && categoriesRes.Ok? then
      var p := productRes.data;
      LoadOutcome(UpdatePage(Some(LoadFields(p)), LoadVariants(p.variants, base), categoriesRes.data, false), None, None)
    else
      LoadOutcome(pg.(isPageLoading := false), Some(ErrorToast("Failed to fetch product data.")), Some("/admin/products"))
  }

  /** The page's header subtitle, or none while the spinner shows (still
      loading, or no product stored). */
  function UpdateSubtitle(pg: UpdatePage): (r: Option<string>)
    ensures r.None? <==> pg.isPageLoading || pg.product.None?
    ensures r.Some? ==> r.value == "Editing: " + pg.product.value.name
  {
    if pg.isPageLoading || pg.product.None? then None else Some("Editing: " + pg.product.value.name)
  }

  /** The initial fetch seen through the page: it leaves for the product
      list exactly when one of the two requests failed, with a toast
      exactly then; a failure from the mounted page stores nothing, so the
      form never shows; a success shows the form headed with the product's
      name, and saving it unedited sends the category back as the loaded
      number and every variant back as it was loaded. */
  lemma UpdateLoadOutcomes(base: string, productRes: Response<StoredProduct>,
                           categoriesRes: Response<seq<CategoryEditor.FlatCategory>>)
    ensures var r := LoadDone(UpdateInitial, base, productRes, categoriesRes);
      (r.navigate.Some? <==> productRes.Err? || categoriesRes.Err?) && (r.toast.Some? <==> r.navigate.Some?)
    ensures productRes.Err? || categoriesRes.Err? ==>
      UpdateSubtitle(LoadDone(UpdateInitial, base, productRes, categoriesRes).page).None?
    ensures productRes.Ok? && categoriesRes.Ok? ==>
      var pg := LoadDone(UpdateInitial, base, productRes, categoriesRes).page;
      UpdateSubtitle(pg) == Some("Editing: " + productRes.data.name) &&
      ExistingProductPayload(pg.product.value, pg.variants) ==
        ExistingProductPayload(LoadFields(productRes.data), LoadVariants(productRes.data.variants, base))
  {
  }

  /** Re-choosing the loaded category in the select sends the same id, but
      as the select's text rather than the number that was loaded. */
  lemma ReselectedCategorySendsText(p: StoredProduct, base: string)
    requires p.categoryId.Some? && p.categoryId.value != 0
    ensures ExistingProductPayload(LoadFields(p), LoadVariants(p.variants, base)).product.categoryRef ==
      LoadedId(p.categoryId.value)
    ensures var option := NumberToString(Finite(p.categoryId.value));
      var d := ExistingProductPayload(ChangeProductField(LoadFields(p), CategoryId, option), LoadVariants(p.variants, base));
      d.product.categoryRef == ChosenText(option) && ToNumber(option) == Finite(p.categoryId.value)
  {
    ToNumberRoundTrip(Finite(p.categoryId.value));
  }

  // ---------------------------------------------------------------- properties

  /** Exclusivity on the add form: after a file is chosen the payload sends
      that file and a null path; after a media pick it sends the picked path
      and no file for that variant. Whichever came last wins. */
  lemma NewFormLastChoiceWins(e: Editor, p: ProductFields, index: nat, f: MediaManager.FileRef, objectUrl: string,
                              base: string, m: MediaManager.MediaFile)
    requires index < |e.variants| && m.url != ""
    ensures var vs := ChooseFileForNew(e.variants, index, Some(f), objectUrl);
      NewProductPayload(p, vs).variants[index].imageUrl.None? && f in NewProductPayload(p, vs).images
    ensures var picked := PickMedia(OpenMediaModal(e, index), base, m).variants;
      NewProductPayload(p, picked).variants[index].imageUrl == Some(m.url) && picked[index].image.None?
  {
    var vs := ChooseFileForNew(e.variants, index, Some(f), objectUrl);
    ChosenFilesMembers(vs);
    assert vs[index].image == Some(f);
  }

  /** The same on the update form: the path is null exactly while a new file
      is chosen; a later pick restores a path and drops the file. */
  lemma ExistingFormLastChoiceWins(e: Editor, p: ProductFields, index: nat, f: MediaManager.FileRef, objectUrl: string,
                                   base: string, m: MediaManager.MediaFile)
    requires index < |e.variants|
    ensures var vs := ChooseFileForExisting(e.variants, index, Some(f), objectUrl);
      ExistingProductPayload(p, vs).variants[index].imageUrl.None? && f in ExistingProductPayload(p, vs).images
    ensures var e2 := OpenMediaModal(e.(variants := ChooseFileForExisting(e.variants, index, Some(f), objectUrl)), index);
      var picked := PickMedia(e2, base, m).variants;
      ExistingProductPayload(p, picked).variants[index].imageUrl == Some(m.url) && picked[index].image.None?
  {
    var vs := ChooseFileForExisting(e.variants, index, Some(f), objectUrl);
    ChosenFilesMembers(vs);
    assert vs[index].image == Some(f);
  }

  /** Choosing a file for a variant that had none adds exactly that file to
      the upload, the other files keeping their order around it. */
  lemma ChoosingAddsOneFile(vs: seq<VariantForm>, index: nat, f: MediaManager.FileRef, objectUrl: string)
    requires index < |vs| && vs[index].image.None?
    ensures ChosenFiles(ChooseFileForNew(vs, index, Some(f), objectUrl)) ==
      ChosenFiles(vs[..index]) + [f] + ChosenFiles(vs[index + 1..])
    ensures ChosenFiles(vs) == ChosenFiles(vs[..index]) + ChosenFiles(vs[index + 1..])
  {
    var v := vs[index].(image := Some(f), clientImageUrl := FilePreview(Some(f), objectUrl), imageUrl := Some(""));
    var before, after := ChosenFiles(vs[..index]), ChosenFiles(vs[index + 1..]);
    calc {
      ChosenFiles(ChooseFileForNew(vs, index, Some(f), objectUrl));
      ChosenFiles(vs[index := v]);
      { ChosenFilesUpdate(vs, index, v); }
      before + ChosenFiles([v]) + after;
      { OneFile(v); }
      before + [f] + after;
    }
    calc {
      ChosenFiles(vs);
      { ChosenFilesAround(vs, index); }
      before + ChosenFiles([vs[index]]) + after;
      { OneFile(vs[index]); }
      before + [] + after;
      { assert before + [] == before; }
      before + after;
    }
  }

  /** The files after one variant is replaced. */
  lemma ChosenFilesUpdate(vs: seq<VariantForm>, index: nat, v: VariantForm)
    requires index < |vs|
    ensures ChosenFiles(vs[index := v]) == ChosenFiles(vs[..index]) + ChosenFiles([v]) + ChosenFiles(vs[index + 1..])
  {
    var r := vs[index := v];
    ChosenFilesAround(r, index);
    assert r[..index] == vs[..index];
    assert r[index + 1..] == vs[index + 1..];
  }

  lemma ConcatAssoc<T>(x: seq<T>, y: seq<T>, z: seq<T>)
    ensures x + (y + z) == x + y + z
  {
  }

  /** A list is its prefix before `index` followed by the rest, and the rest
      starts with the element at `index`. */
  lemma SplitAt<T>(vs: seq<T>, index: nat)
    requires index < |vs|
    ensures vs == vs[..index] + vs[index..]
    ensures vs[index..][0] == vs[index] && vs[index..][1..] == vs[index + 1..]
  {
  }

  /** The files of a non-empty list: those of its first variant, then the rest. */
  lemma ChosenFilesCons(vs: seq<VariantForm>)
    requires vs != []
    ensures ChosenFiles(vs) == ChosenFiles([vs[0]]) + ChosenFiles(vs[1..])
  {
    OneFile(vs[0]);
  }

  lemma OneFile(v: VariantForm)
    ensures ChosenFiles([v]) == if v.image.Some? then [v.image.value] else []
  {
    assert [v][1..] == [];
  }

  /** The files of a list: those before a variant, its own, those after. */
  lemma ChosenFilesAround(vs: seq<VariantForm>, index: nat)
    requires index < |vs|
    ensures ChosenFiles(vs) == ChosenFiles(vs[..index]) + ChosenFiles([vs[index]]) + ChosenFiles(vs[index + 1..])
  {
    var a, rest, c := vs[..index], vs[index..], vs[index + 1..];
    var x, y, z := ChosenFiles(a), ChosenFiles([vs[index]]), ChosenFiles(c);
    SplitAt(vs, index);
    ChosenFilesConcat(a, rest);
    ChosenFilesCons(rest);
    ConcatAssoc(x, y, z);
  }

  /** The add form as written loses a picked media image: the preview shows
      "<base>undefined", and the payload sends neither a path nor a file
      for that variant. */
  lemma MediaPickAsWrittenLosesImage(e: Editor, p: ProductFields, index: nat, base: string, m: MediaManager.MediaFile)
    requires index < |e.variants|
    ensures var picked := PickMediaAsWritten(OpenMediaModal(e, index), base, m).variants;
      picked[index].clientImageUrl == Some(base + "undefined") &&
      NewProductPayload(p, picked).variants[index].imageUrl.None? && picked[index].image.None?
  {
  }

  /** The corrected pick keeps the image whenever the library file has a path. */
  lemma MediaPickKeepsImage(e: Editor, p: ProductFields, index: nat, base: string, m: MediaManager.MediaFile)
    requires index < |e.variants| && m.url != ""
    ensures var picked := PickMedia(OpenMediaModal(e, index), base, m).variants;
      picked[index].clientImageUrl == Some(base + m.url) &&
      NewProductPayload(p, picked).variants[index].imageUrl == Some(m.url)
  {
  }

  /** What a submit ends in: the toast and, on success, the page navigated to. */
  function SubmitDone(resp: Response<()>, success: string, fallback: string): (r: (Toast, Option<string>))
    ensures resp.Ok? ==> r == (SuccessToast(success), Some("/admin/products"))
    ensures resp.Err? ==> r == (ErrorToast(ErrorText(resp, fallback)), None)
  {
    match resp
    case Ok(_) => (SuccessToast(success), Some("/admin/products"))
    case Err(_, _) => (ErrorToast(ErrorText(resp, fallback)), None)
  }

  /** The field a product input names, read back as the value sent. */
  function FieldOf(p: ProductFields, field: ProductField): CategoryValue {
    match field
    case Name => ChosenText(p.name)
    case Description => ChosenText(p.description)
    case Brand => ChosenText(p.brand)
    case CategoryId => p.categoryId
  }

  /** Typing into one product input reaches the request: both forms send
      the typed value in that field (and as the category reference when it
      is the category), every other field as it was, and the same variant
      records and files. */
  lemma ProductFieldReachesPayload(p: ProductFields, vs: seq<VariantForm>, field: ProductField, value: string, g: ProductField)
    ensures var d := ExistingProductPayload(ChangeProductField(p, field, value), vs);
      FieldOf(d.product.fields, field) == ChosenText(value) &&
      (g != field ==> FieldOf(d.product.fields, g) == FieldOf(p, g)) &&
      d.product.categoryRef == (if field == CategoryId then ChosenText(value) else p.categoryId) &&
      d.variants == ExistingProductPayload(p, vs).variants && d.images == ExistingProductPayload(p, vs).images
    ensures var d := NewProductPayload(ChangeProductField(p, field, value), vs);
      FieldOf(d.product.fields, field) == ChosenText(value) &&
      (g != field ==> FieldOf(d.product.fields, g) == FieldOf(p, g)) &&
      d.variants == NewProductPayload(p, vs).variants && d.images == NewProductPayload(p, vs).images
  {
  }

  /** Submitting the add form untouched posts exactly one variant with every
      field empty, its empty image path as null, and no file. */
  lemma FreshFormPostsOneBlankVariant(p: ProductFields)
    ensures NewProductPayload(p, AddInitial().variants) ==
      Payload(ProductPart(p), [VariantRecord(None, "", "", "", "", None)], [])
    ensures !AddInitial().isMediaModalOpen && !RemoveOffered(AddInitial().variants)
  {
    var vs := AddInitial().variants;
    assert vs[1..] == [];
    assert ChosenFiles(vs) == [];
  }

  /** A submit's outcome table for both product forms: the page is left for
      the product list exactly when the request succeeded, the toast is a
      success exactly then, and a failure shows the server's message or,
      without one, the form's own text. */
  lemma SubmitOutcomes(resp: Response<()>, success: string, fallback: string)
    ensures SubmitDone(resp, success, fallback).1.Some? <==> resp.Ok?
    ensures SubmitDone(resp, success, fallback).0.SuccessToast? <==> resp.Ok?
    ensures resp.Err? && fallback != "" ==> SubmitDone(resp, success, fallback).0.message != ""
    ensures resp.Err? && resp.message != "" ==> SubmitDone(resp, success, fallback).0 == ErrorToast(resp.message)
  {
  }
}
