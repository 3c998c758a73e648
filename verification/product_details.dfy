/**
 * The product page: which variant is selected, the colour and size choices
 * offered, the image shown, and whether the product can be added to the cart.
 */
module ProductDetails {
  import opened Wrappers
  import opened JsSet
  import opened Catalog
  import opened Http
  import opened Toasts
  import Cart
  import ProductCard

  /** The selection after a product has been fetched: its first variant when
      it has any, otherwise whatever was selected before. The state survives
      a change of the route's id, so `prev` may belong to another product. */
  function SelectionAfterLoad(p: Product, prev: Option<Variant>): (sel: Option<Variant>)
    ensures |p.variants| > 0 ==> sel == Some(p.variants[0])
    ensures |p.variants| == 0 ==> sel == prev
  {
    if |p.variants| > 0 then Some(p.variants[0]) else prev
  }

  /** The page's state: the product shown, the selected variant and the
      loading flag. */
  datatype Page = Page(product: Option<Product>, selected: Option<Variant>, isLoading: bool)

  /** On mount nothing is loaded and nothing is selected. */
  const InitialPage := Page(None, None, true)

  /** The answer to `GET /api/products/{id}`. Success shows the product and
      selects as `SelectionAfterLoad` says; a failure keeps whatever was
      shown, with a toast. Loading ends either way. */
  function LoadDone(pg: Page, resp: Response<Product>): (r: (Page, Option<Toast>))
    ensures !r.0.isLoading
    ensures resp.Ok? ==>
      r.0.product == Some(resp.data) && r.0.selected == SelectionAfterLoad(resp.data, pg.selected) && r.1.None?
    ensures resp.Err? ==>
      r.0.product == pg.product && r.0.selected == pg.selected &&
      r.1 == Some(ErrorToast("Failed to fetch product details."))
  {
    match resp
    case Ok(p) => (Page(Some(p), SelectionAfterLoad(p, pg.selected), false), None)
    case Err(_, _) => (pg.(isLoading := false), Some(ErrorToast("Failed to fetch product details.")))
  }

  /** What the page renders: a spinner, the not-found message, or the
      product with its selection. */
  datatype PageView = Spinner | NotFound | Shown(product: Product, selected: Option<Variant>)

  function View(pg: Page): (v: PageView)
    ensures v.Spinner? <==> pg.isLoading
    ensures v.NotFound? <==> !pg.isLoading && pg.product.None?
    ensures v.Shown? ==> Some(v.product) == pg.product && v.selected == pg.selected
  {
    if pg.isLoading then Spinner
    else if pg.product.None? then NotFound
    else Shown(pg.product.value, pg.selected)
  }

  /** The colour of every variant, in order. */
  function ColorsOf(vs: seq<Variant>): (cs: seq<string>)
    ensures |cs| == |vs| && forall i :: 0 <= i < |vs| ==> cs[i] == vs[i].color
  {
    seq(|vs|, i requires 0 <= i < |vs| => vs[i].color)
  }

  /** `availableColors`: each variant colour once, in order of first appearance. */
  function AvailableColors(p: Product): (cs: seq<string>)
    ensures NoDup(cs)
    ensures forall c :: c in cs <==> exists i :: 0 <= i < |p.variants| && p.variants[i].color == c
  {
    var all := ColorsOf(p.variants);
    assert forall c :: c in all <==> exists i :: 0 <= i < |p.variants| && p.variants[i].color == c by {
      forall c | c in all ensures exists i :: 0 <= i < |p.variants| && p.variants[i].color == c {
        var i :| 0 <= i < |all| && all[i] == c;
        assert p.variants[i].color == c;
      }
    }
    FromSeq(all)
  }

  /** The sizes offered for `color`: the sizes of the variants of that colour,
      in variant order, repeats included. */
  function SizesForColor(vs: seq<Variant>, color: string): (ss: seq<string>)
    ensures |ss| <= |vs|
    ensures forall s :: s in ss <==> exists i :: 0 <= i < |vs| && vs[i].color == color && vs[i].size == s
  {
    if vs == [] then []
    else
      var rest := SizesForColor(vs[1..], color);
      assert forall i :: 1 <= i < |vs| ==> vs[i] == vs[1..][i - 1];
      if vs[0].color == color then [vs[0].size] + rest else rest
  }

  /** `.filter` keeps variant order and repeats: the sizes of two runs of
      variants are the sizes of the first run followed by those of the second. */
  lemma {:induction false} SizesForColorConcat(a: seq<Variant>, b: seq<Variant>, color: string)
    ensures SizesForColor(a + b, color) == SizesForColor(a, color) + SizesForColor(b, color)
    decreases |a|
  {
    if a == [] {
      assert a + b == b;
    } else {
      assert (a + b)[1..] == a[1..] + b;
      SizesForColorConcat(a[1..], b, color);
    }
  }

  /** A single variant offers its size exactly when it has the colour. */
  lemma SizesForColorOne(v: Variant, color: string)
    ensures SizesForColor([v], color) == if v.color == color then [v.size] else []
  {
    assert [v][1..] == [];
  }

  /** `variants.find(v => v.color === color)`. */
  function FirstOfColor(vs: seq<Variant>, color: string): (r: Option<Variant>)
    ensures r.None? <==> forall i :: 0 <= i < |vs| ==> vs[i].color != color
    ensures r.Some? ==> r.value.color == color
    ensures r.Some? ==> exists k :: 0 <= k < |vs| && vs[k] == r.value && (forall j :: 0 <= j < k ==> vs[j].color != color)
  {
    if vs == [] then None
    else if vs[0].color == color then Some(vs[0])
    else
      var r := FirstOfColor(vs[1..], color);
      if r.Some? then
        var k :| 0 <= k < |vs[1..]| && vs[1..][k] == r.value && r.value.color == color &&
          (forall j :: 0 <= j < k ==> vs[1..][j].color != color);
        assert vs[k + 1] == r.value;
        assert forall j :: 0 <= j < k + 1 ==> vs[j].color != color by {
          forall j | 0 < j < k + 1 ensures vs[j].color != color {
            assert vs[j] == vs[1..][j - 1];
          }
        }
        r
      else
        assert forall i :: 0 <= i < |vs| ==> vs[i].color != color by {
          forall i | 0 < i < |vs| ensures vs[i].color != color {
            assert vs[i] == vs[1..][i - 1];
          }
        }
        r
  }

  /** `variants.find(v => v.color === color && v.size === size)`. */
  function FirstOfColorSize(vs: seq<Variant>, color: string, size: string): (r: Option<Variant>)
    ensures r.None? <==> forall i :: 0 <= i < |vs| ==> vs[i].color != color || vs[i].size != size
    ensures r.Some? ==> r.value.color == color && r.value.size == size
    ensures r.Some? ==>
      exists k :: 0 <= k < |vs| && vs[k] == r.value &&
        (forall j :: 0 <= j < k ==> vs[j].color != color || vs[j].size != size)
  {
    if vs == [] then None
    else if vs[0].color == color && vs[0].size == size then Some(vs[0])
    else
      var r := FirstOfColorSize(vs[1..], color, size);
      if r.Some? then
        var k :| 0 <= k < |vs[1..]| && vs[1..][k] == r.value &&
          (forall j :: 0 <= j < k ==> vs[1..][j].color != color || vs[1..][j].size != size);
        assert vs[k + 1] == r.value;
        assert forall j :: 0 <= j < k + 1 ==> vs[j].color != color || vs[j].size != size by {
          forall j | 0 < j < k + 1 ensures vs[j].color != color || vs[j].size != size {
            assert vs[j] == vs[1..][j - 1];
          }
        }
        r
      else
        assert forall i :: 0 <= i < |vs| ==> vs[i].color != color || vs[i].size != size by {
          forall i | 0 < i < |vs| ensures vs[i].color != color || vs[i].size != size {
            assert vs[i] == vs[1..][i - 1];
          }
        }
        r
  }

  /** `handleColorSelect(color)`: the first variant of that colour, or no
      change when the product has none. */
  function SelectColor(p: Product, sel: Option<Variant>, color: string): (r: Option<Variant>)
    ensures (exists i :: 0 <= i < |p.variants| && p.variants[i].color == color) ==>
      r.Some? && r.value.color == color &&
      exists k :: 0 <= k < |p.variants| && p.variants[k] == r.value &&
        (forall j :: 0 <= j < k ==> p.variants[j].color != color)
    ensures (forall i :: 0 <= i < |p.variants| ==> p.variants[i].color != color) ==> r == sel
  {
    match FirstOfColor(p.variants, color)
    case Some(v) => Some(v)
    case None => sel
  }

  /** `handleSizeSelect(size)`: the variant of the selected colour with that
      size, or no change when there is none. The colour never changes. */
  function SelectSize(p: Product, sel: Variant, size: string): (r: Variant)
    ensures r.color == sel.color
    ensures (exists i :: 0 <= i < |p.variants| && p.variants[i].color == sel.color && p.variants[i].size == size) ==>
      r.size == size &&
      exists k :: 0 <= k < |p.variants| && p.variants[k] == r &&
        (forall j :: 0 <= j < k ==> p.variants[j].color != sel.color || p.variants[j].size != size)
    ensures (forall i :: 0 <= i < |p.variants| ==> p.variants[i].color != sel.color || p.variants[i].size != size) ==> r == sel
  {
    match FirstOfColorSize(p.variants, sel.color, size)
    case Some(v) => v
    case None => sel
  }

  /** Whether the add-to-cart button is enabled: never without a selection,
      always for a variant in stock, never for one whose stock is exactly 0. */
  function CanAddToCart(sel: Option<Variant>): (enabled: bool)
    ensures enabled ==> sel.Some?
    ensures sel.Some? && sel.value.stockQuantity > 0 ==> enabled
    ensures sel.Some? && sel.value.stockQuantity == 0 ==> !enabled
  {
    sel.Some? && sel.value.stockQuantity != 0
  }

  /** The button's label: 'Add to Cart' while stock is positive. */
  function ButtonLabel(sel: Option<Variant>): (text: string)
    ensures text == "Add to Cart" <==> sel.Some? && sel.value.stockQuantity > 0
    ensures text != "Add to Cart" ==> text == "Out of Stock"
  {
    if sel.Some? && sel.value.stockQuantity > 0 then "Add to Cart" else "Out of Stock"
  }

  /** `handleAddToCart()`: adds the selected variant; nothing without one. */
  function AddToCart(cart: Cart.CartState, sel: Option<Variant>, p: Product): (r: Cart.CartState)
    ensures sel.None? ==> r == cart
    ensures sel.Some? ==> r == Cart.Add(cart, sel.value, p)
    ensures sel.Some? ==> Cart.Contains(r.lines, sel.value.id)
  {
    if sel.Some? then Cart.Add(cart, sel.value, p) else cart
  }

  /** The image shown: the base URL and the variant's image path, or '' when
      there is no selection or no (non-empty) path. */
  function ImageUrl(base: string, sel: Option<Variant>): (url: string)
    ensures url == "" <==> sel.None? || sel.value.imageUrl.None? || sel.value.imageUrl.value == ""
    ensures sel.Some? && sel.value.imageUrl.Some? && sel.value.imageUrl.value != "" ==> url == base + sel.value.imageUrl.value
  {
    if sel.Some? && sel.value.imageUrl.Some? && sel.value.imageUrl.value != "" then base + sel.value.imageUrl.value else ""
  }

  /** The variants of the product. */
  predicate SelectionOf(p: Product, sel: Option<Variant>) {
    sel.Some? ==> sel.value in p.variants
  }

  /** Whatever the user clicks, the selection stays one of the product's
      variants, and a selected variant's colour and size are among the
      choices shown. */
  lemma SelectionStaysInProduct(p: Product, sel: Option<Variant>, color: string, size: string)
    requires SelectionOf(p, sel)
    ensures |p.variants| > 0 ==> SelectionOf(p, SelectionAfterLoad(p, sel))
    ensures SelectionOf(p, SelectColor(p, sel, color))
    ensures sel.Some? ==> SelectionOf(p, Some(SelectSize(p, sel.value, size)))
  {
  }

  /** The selected variant's colour is offered, and so is its size for that colour. */
  lemma SelectedIsOffered(p: Product, v: Variant)
    requires v in p.variants
    ensures v.color in AvailableColors(p)
    ensures v.size in SizesForColor(p.variants, v.color)
  {
    var i :| 0 <= i < |p.variants| && p.variants[i] == v;
    assert p.variants[i].color == v.color;
  }

  /** Every size button leads to a variant of exactly that size. */
  lemma OfferedSizeSelects(p: Product, sel: Variant, size: string)
    requires size in SizesForColor(p.variants, sel.color)
    ensures SelectSize(p, sel, size).size == size && SelectSize(p, sel, size).color == sel.color
  {
  }

  /** An enabled button is labelled 'Add to Cart' unless the stock is
      negative; a disabled one always reads 'Out of Stock'. */
  lemma LabelMatchesEnablement(sel: Option<Variant>)
    ensures !CanAddToCart(sel) ==> ButtonLabel(sel) == "Out of Stock"
    ensures CanAddToCart(sel) && sel.value.stockQuantity >= 0 ==> ButtonLabel(sel) == "Add to Cart"
  {
  }

  /** Pressing an enabled button puts the selected variant in the cart; a
      button disabled for want of a selection changes nothing. */
  lemma EnabledButtonAdds(cart: Cart.CartState, sel: Option<Variant>, p: Product)
    ensures CanAddToCart(sel) ==> Cart.Contains(AddToCart(cart, sel, p).lines, sel.value.id)
    ensures sel.None? ==> !CanAddToCart(sel) && AddToCart(cart, sel, p) == cart
  {
  }

  /** Rendering the size list as written reads `selectedVariant.color` only
      from inside the filter callback, so it throws (`None`) exactly when
      nothing is selected and there is a variant to call the callback on. */
  function SizesAsWritten(p: Product, sel: Option<Variant>): (r: Option<seq<string>>)
    ensures r.None? <==> sel.None? && |p.variants| > 0
    ensures sel.Some? ==> r == Some(SizesForColor(p.variants, sel.value.color))
    ensures sel.None? && |p.variants| == 0 ==> r == Some([])
  {
    if sel.Some? then Some(SizesForColor(p.variants, sel.value.color))
    else if |p.variants| == 0 then Some([])
    else None
  }

  /** The size list with optional chaining: no sizes without a selection. */
  function Sizes(p: Product, sel: Option<Variant>): (ss: seq<string>)
    ensures sel.None? ==> ss == []
    ensures sel.Some? ==> forall s :: s in ss <==>
      exists i :: 0 <= i < |p.variants| && p.variants[i].color == sel.value.color && p.variants[i].size == s
  {
    if sel.None? then [] else SizesForColor(p.variants, sel.value.color)
  }

  /** The list as written never throws on a page that has loaded a product:
      from a fresh mount (nothing selected before) or after navigating from
      another product, the selection is empty only when the product has no
      variants, and then the filter has nothing to call. It always shows
      the same sizes as the optional-chained list, and for a product with
      variants it offers the first variant's size. */
  lemma SizesRenderAfterLoad(p: Product, prev: Option<Variant>)
    ensures var sel := SelectionAfterLoad(p, prev);
      SizesAsWritten(p, sel) == Some(Sizes(p, sel))
    ensures |p.variants| > 0 ==> p.variants[0].size in Sizes(p, SelectionAfterLoad(p, prev))
  {
    if |p.variants| > 0 {
      assert p.variants[0].color == SelectionAfterLoad(p, prev).value.color;
    }
  }

  /** A product without variants shows no sizes, even with a selection left
      over from the product shown before. */
  lemma NoVariantsNoSizes(p: Product, prev: Option<Variant>)
    requires |p.variants| == 0
    ensures SizesAsWritten(p, SelectionAfterLoad(p, prev)) == Some([])
  {
  }

  /** After navigating to a product without variants the previous product's
      variant stays selected, so the button adds that variant, now paired
      with the new product's name and brand. */
  lemma StaleSelectionAddsPreviousVariant(cart: Cart.CartState, p: Product, v: Variant)
    requires |p.variants| == 0
    ensures SelectionAfterLoad(p, Some(v)) == Some(v)
    ensures AddToCart(cart, SelectionAfterLoad(p, Some(v)), p) == Cart.Add(cart, v, p)
  {
  }

  /** The product page shows the same image as the product's card in the
      grid: for the same stored path, the card's source is the page's URL
      followed by the space the card's template adds, and both are empty
      without a path. */
  lemma CardAndPageShowSameImage(base: string, s: ProductCard.Summary, v: Variant)
    requires s.imageUrl == v.imageUrl
    ensures ProductCard.ImageSrc(base, s) == if ImageUrl(base, Some(v)) == "" then "" else ImageUrl(base, Some(v)) + " "
  {
  }

  /** A load seen through the page: a failed first load ends on the
      not-found message with a toast; a failed later load keeps showing the
      product before it; a successful load shows the fetched product, and
      its size list renders. */
  lemma LoadOutcomes(pg: Page, resp: Response<Product>)
    ensures resp.Err? && pg.product.None? ==>
      View(LoadDone(pg, resp).0) == NotFound && LoadDone(pg, resp).1 == Some(ErrorToast("Failed to fetch product details."))
    ensures resp.Err? && pg.product.Some? ==> View(LoadDone(pg, resp).0) == Shown(pg.product.value, pg.selected)
    ensures resp.Ok? ==>
      var v := View(LoadDone(pg, resp).0);
      v.Shown? && v.product == resp.data && SizesAsWritten(v.product, v.selected).Some?
    ensures View(LoadDone(pg, resp).0).Shown? <==> resp.Ok? || pg.product.Some?
  {
    if resp.Ok? {
      SizesRenderAfterLoad(resp.data, pg.selected);
    }
  }

  /** From the mounted page, a failed load shows the not-found message. */
  lemma FailedFirstLoadNotFound(resp: Response<Product>)
    requires resp.Err?
    ensures View(InitialPage) == Spinner && View(LoadDone(InitialPage, resp).0) == NotFound
  {
    LoadOutcomes(InitialPage, resp);
  }
}
