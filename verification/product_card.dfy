/**
 * The product card of the catalogue grid: the "New" and "Sale" badges, the
 * image source, the name and price shown, and the link to the product page.
 * Times are milliseconds since the epoch; the current time is a parameter.
 */
module ProductCard {
  import opened Wrappers
  import opened Text

  /** A product as listed. Absent, null and empty fields are `None`; a
      release date that does not parse as a date is `None` as well, since
      such a date compares false against any time. */
  datatype Summary = Summary(
    id: nat,
    name: Option<string>,
    brand: Option<string>,
    imageUrl: Option<string>,
    releaseDate: Option<int>,
    salePrice: Option<real>,
    basePrice: Option<real>)

  /** Thirty days in milliseconds. */
  const ThirtyDaysMs: int := 30 * 24 * 60 * 60 * 1000

  /** JavaScript truthiness of an optional number (NaN aside). */
  predicate Truthy(x: Option<real>) {
    x.Some? && x.value != 0.0
  }

  /** `isNew`: released strictly less than thirty days before `now`. */
  predicate IsNew(p: Summary, now: int) {
    p.releaseDate.Some? && p.releaseDate.value > now - ThirtyDaysMs
  }

  /** `onSale`: both prices truthy and the sale price below the base price. */
  predicate OnSale(p: Summary) {
    Truthy(p.salePrice) && Truthy(p.basePrice) && p.salePrice.value < p.basePrice.value
  }

  /** The card's price area. */
  datatype PriceDisplay = SalePrice(price: real, struck: real) | BasePrice(price: real) | PriceUnavailable

  function Price(p: Summary): (d: PriceDisplay)
    ensures d.SalePrice? <==> OnSale(p)
    ensures d.SalePrice? ==> d.price < d.struck && d.price != 0.0 && Some(d.price) == p.salePrice && Some(d.struck) == p.basePrice
    ensures d.BasePrice? ==> Some(d.price) == p.basePrice
    ensures d.PriceUnavailable? <==> p.basePrice.None?
  {
    if OnSale(p) then SalePrice(p.salePrice.value, p.basePrice.value)
    else if p.basePrice.Some? then BasePrice(p.basePrice.value)
    else PriceUnavailable
  }

  /** The title: the name, or 'Unnamed Product' when it is missing or empty. */
  function DisplayName(p: Summary): (n: string)
    ensures n != ""
    ensures p.name.Some? && p.name.value != "" ==> n == p.name.value
    ensures p.name.None? || p.name.value == "" ==> n == "Unnamed Product"
  {
    if p.name.Some? && p.name.value != "" then p.name.value else "Unnamed Product"
  }

  /** The image source: base URL, image path and a trailing space (which
      browsers strip), or '' when the product has no image path. */
  function ImageSrc(base: string, p: Summary): (src: string)
    ensures p.imageUrl.None? || p.imageUrl.value == "" ==> src == ""
    ensures p.imageUrl.Some? && p.imageUrl.value != "" ==>
      |src| > 0 && src[..|src| - 1] == base + p.imageUrl.value && src[|src| - 1] == ' '
  {
    if p.imageUrl.Some? && p.imageUrl.value != "" then base + p.imageUrl.value + " " else ""
  }

  /** A sale price of 0 never puts a product on sale, whatever its base price. */
  lemma ZeroSalePriceNeverOnSale(p: Summary)
    requires p.salePrice == Some(0.0)
    ensures !OnSale(p) && !Price(p).SalePrice?
  {
  }

  /** A product that is new now was new at every earlier moment after its
      release, and stops being new exactly thirty days after it. */
  lemma IsNewWindow(p: Summary, now: int, earlier: int)
    requires p.releaseDate.Some?
    ensures IsNew(p, now) && earlier <= now ==> IsNew(p, earlier)
    ensures !IsNew(p, p.releaseDate.value + ThirtyDaysMs)
    ensures IsNew(p, p.releaseDate.value + ThirtyDaysMs - 1)
  {
  }

  /** The card's link target as written: `/ product / ${id} `, with spaces
      around every piece. */
  function LinkAsWritten(id: nat): string {
    "/ product / " + NatToString(id) + " "
  }

  /** The storefront's product route `/product/:id`: the id segment of a path
      that matches it, if any. */
  function ProductRouteId(path: string): (id: Option<string>)
    ensures id.Some? ==> path == "/product/" + id.value && id.value != "" && '/' !in id.value
  {
    if |path| > 9 && path[..9] == "/product/" && '/' !in path[9..] then
      assert path == path[..9] + path[9..];
      Some(path[9..])
    else None
  }

  /** No product is reachable from the card as written: its link never
      matches the product route. */
  lemma LinkAsWrittenNeverMatches(id: nat)
    ensures ProductRouteId(LinkAsWritten(id)).None?
  {
    var path := LinkAsWritten(id);
    assert path[1] == ' ';
    assert "/product/"[1] == 'p';
  }

  /** The link the route expects. */
  function Link(id: nat): (path: string)
    ensures ProductRouteId(path) == Some(NatToString(id))
  {
    LinkReachesProduct(id);
    "/product/" + NatToString(id)
  }

  lemma LinkReachesProduct(id: nat)
    ensures ProductRouteId("/product/" + NatToString(id)) == Some(NatToString(id))
  {
    var path := "/product/" + NatToString(id);
    assert path[..9] == "/product/";
    assert path[9..] == NatToString(id);
    assert '/' !in NatToString(id) by {
      assert !IsDigit('/');
    }
  }

  /** The product page reads the id back from the corrected link exactly. */
  lemma LinkRoundTrip(id: nat)
    ensures ParseInt(ProductRouteId(Link(id)).value) == Finite(id)
  {
    ParseIntRoundTrip(Finite(id));
  }

  /** The fallback title is stable: a card whose name is the title shown
      shows that same title, and a blank name and a missing one look alike. */
  lemma DisplayNameStable(p: Summary)
    ensures DisplayName(p.(name := Some(DisplayName(p)))) == DisplayName(p)
    ensures DisplayName(p.(name := Some(""))) == DisplayName(p.(name := None)) == "Unnamed Product"
  {
  }
}
