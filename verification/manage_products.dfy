/**
 * The admin product list: paged fetching with its tolerance of three
 * response shapes, the pager, and archiving a product through a
 * confirmation modal.
 */
module ManageProducts {
  import opened Wrappers
  import opened Http
  import opened Toasts

  /** The fields of a listed product the page acts on. */
  datatype ProductRow = ProductRow(id: int, name: string)

  /** The body of `GET /api/products` as the page tells shapes apart: an
      object whose `content` is an array (with `page` and `totalPages` when
      present and non-zero), a plain array, or anything else. */
  datatype ProductsBody =
    | Paged(content: seq<ProductRow>, page: Option<int>, totalPages: Option<int>)
    | PlainList(items: seq<ProductRow>)
    | Unexpected

  /** The page size the list always asks for. */
  const PageSize := 10

  /** The query of one fetch. */
  datatype PageRequest = PageRequest(page: int, size: int)

  datatype State = State(
    products: seq<ProductRow>,
    isLoading: bool,
    page: int,
    totalPages: int,
    isModalOpen: bool,
    productToDelete: Option<ProductRow>)

  const Initial := State([], true, 0, 1, false, None)

  /** The first fetch, made when the page mounts. */
  const FirstRequest := PageRequest(0, PageSize)

  /** `x || fallback` for an optional number: 0 counts as missing. */
  function OrElse(x: Option<int>, fallback: int): (r: int)
    ensures x.Some? && x.value != 0 ==> r == x.value
    ensures x.None? || x.value == 0 ==> r == fallback
  {
    if x.Some? && x.value != 0 then x.value else fallback
  }

  /** The outcome of `fetchProducts(pageNumber)`: the rows and pager it
      sets, and the error toast it raises if any. Loading ends either way. */
  function FetchDone(st: State, pageNumber: int, resp: Response<ProductsBody>): (r: (State, Option<Toast>))
    ensures !r.0.isLoading
    ensures r.0.isModalOpen == st.isModalOpen && r.0.productToDelete == st.productToDelete
    ensures resp.Ok? && resp.data.Paged? ==>
      r.1.None? && r.0.products == resp.data.content &&
      r.0.page == OrElse(resp.data.page, pageNumber) && r.0.totalPages == OrElse(resp.data.totalPages, 1)
    ensures resp.Ok? && resp.data.PlainList? ==>
      r.1.None? && r.0.products == resp.data.items && r.0.page == 0 && r.0.totalPages == 1
    ensures resp.Ok? && resp.data.Unexpected? ==>
      r.0.products == [] && r.0.page == st.page && r.0.totalPages == st.totalPages &&
      r.1 == Some(ErrorToast("Received an unexpected data format for products."))
    ensures resp.Err? ==>
      r.0.products == st.products && r.0.page == st.page && r.0.totalPages == st.totalPages &&
      r.1 == Some(ErrorToast("Failed to fetch products."))
  {
    match resp
    case Ok(Paged(content, page, totalPages)) =>
      (st.(products := content, page := OrElse(page, pageNumber), totalPages := OrElse(totalPages, 1), isLoading := false), None)
    case Ok(PlainList(items)) =>
      (st.(products := items, page := 0, totalPages := 1, isLoading := false), None)
    case Ok(Unexpected) =>
      (st.(products := [], isLoading := false), Some(ErrorToast("Received an unexpected data format for products.")))
    case Err(_, _) =>
      (st.(isLoading := false), Some(ErrorToast("Failed to fetch products.")))
  }

  /** `goToPage(n)`: the fetch it starts, or none for a page out of range. */
  function GoToPage(st: State, n: int): (r: Option<PageRequest>)
    ensures r.Some? <==> 0 <= n < st.totalPages
    ensures r.Some? ==> r.value == PageRequest(n, PageSize)
  {
    if n < 0 || n >= st.totalPages then None else Some(PageRequest(n, PageSize))
  }

  /** The Previous button is enabled away from the first page. */
  predicate PreviousEnabled(st: State) {
    st.page != 0
  }

  /** The Next button is enabled before the last page. */
  predicate NextEnabled(st: State) {
    st.page + 1 < st.totalPages
  }

  /** The pager is in range: the current page is one of the pages. */
  predicate PagerInRange(st: State) {
    0 <= st.page < st.totalPages
  }

  /** On a pager in range an enabled button always fetches its page, and a
      disabled one would be refused by `goToPage` anyway. */
  lemma ButtonsMatchGoToPage(st: State)
    requires PagerInRange(st)
    ensures PreviousEnabled(st) <==> GoToPage(st, st.page - 1).Some?
    ensures NextEnabled(st) <==> GoToPage(st, st.page + 1).Some?
  {
  }

  /** A plain array resets the pager to a single page: both buttons off. */
  lemma PlainListDisablesPager(st: State, pageNumber: int, items: seq<ProductRow>)
    ensures var s := FetchDone(st, pageNumber, Ok(PlainList(items))).0;
      PagerInRange(s) && !PreviousEnabled(s) && !NextEnabled(s)
  {
  }

  /** A paged answer for a requested page in range, without a page number of
      its own and with a positive page count covering it, keeps the pager in
      range. */
  lemma PagedAnswerInRange(st: State, pageNumber: int, content: seq<ProductRow>, totalPages: int)
    requires 0 <= pageNumber < totalPages
    ensures PagerInRange(FetchDone(st, pageNumber, Ok(Paged(content, None, Some(totalPages)))).0)
  {
  }

  /** The Archive button: remembers the product and opens the modal. */
  function OpenDeleteModal(st: State, p: ProductRow): (r: State)
    ensures r.isModalOpen && r.productToDelete == Some(p)
    ensures r.products == st.products && r.page == st.page && r.totalPages == st.totalPages
  {
    st.(productToDelete := Some(p), isModalOpen := true)
  }

  /** Cancel: forgets the product and closes the modal. */
  function CloseDeleteModal(st: State): (r: State)
    ensures !r.isModalOpen && r.productToDelete.None?
    ensures r.products == st.products && r.page == st.page && r.totalPages == st.totalPages
  {
    st.(productToDelete := None, isModalOpen := false)
  }

  /** What `handleDelete` does with the answer to the archive request: the
      state it leaves, its toast, and the page it re-fetches if any. */
  datatype ArchiveOutcome = ArchiveOutcome(state: State, toast: Option<Toast>, refetch: Option<PageRequest>)

  function ArchiveSuccessText(p: ProductRow): string {
    "Product \"" + p.name + "\" archived successfully."
  }

  function HandleDelete(st: State, resp: Response<()>): (r: ArchiveOutcome)
    ensures st.productToDelete.None? ==> r == ArchiveOutcome(st, None, None)
    ensures st.productToDelete.Some? ==> r.state == CloseDeleteModal(st)
    ensures st.productToDelete.Some? ==> (r.refetch.Some? <==> resp.Ok?)
    ensures st.productToDelete.Some? && resp.Ok? ==>
      r.refetch == Some(PageRequest(st.page, PageSize)) &&
      r.toast == Some(SuccessToast(ArchiveSuccessText(st.productToDelete.value)))
    ensures st.productToDelete.Some? && HasStatus(resp, 409) ==>
      r.toast == Some(ErrorToast(ErrorText(resp, "Cannot delete: Product is in use.")))
    ensures st.productToDelete.Some? && resp.Err? && !HasStatus(resp, 409) ==>
      r.toast == Some(ErrorToast("Failed to archive product."))
  {
    match st.productToDelete
    case None => ArchiveOutcome(st, None, None)
    case Some(p) =>
      match resp
      case Ok(_) =>
        ArchiveOutcome(CloseDeleteModal(st), Some(SuccessToast(ArchiveSuccessText(p))), Some(PageRequest(st.page, PageSize)))
      case Err(status, _) =>
        var text := if status == Some(409) then ErrorText(resp, "Cannot delete: Product is in use.") else "Failed to archive product.";
        ArchiveOutcome(CloseDeleteModal(st), Some(ErrorToast(text)), None)
  }

  /** Confirming an archive always ends with the modal closed and nothing
      pending, whatever the server answers; the list itself only changes
      through the re-fetch of the page being shown. */
  lemma ArchiveClosesModal(st: State, p: ProductRow, resp: Response<()>)
    ensures var r := HandleDelete(OpenDeleteModal(st, p), resp);
      !r.state.isModalOpen && r.state.productToDelete.None? && r.state.products == st.products
    ensures var r := HandleDelete(OpenDeleteModal(st, p), resp);
      r.refetch.Some? ==> r.refetch.value.page == st.page
  {
  }
}
