/**
 * The `useFilters` hook: filter state read from the URL query, and the brand
 * toggle that rewrites the `brands` pairs of the query. The debounce before
 * the URL is written is not modelled: the query is returned directly.
 */
module UseFilters {
  import opened Text
  import opened QueryParams
  import opened JsSet
  import CategoryFilters

  datatype HookState = HookState(
    selectedSubcategories: seq<NumberValue>,
    selectedBrands: seq<string>,
    selectedSizes: seq<string>,
    minPrice: string,
    maxPrice: string,
    sort: string)

  /** `Number(v)` over every value. */
  function NumberAll(xs: seq<string>): (r: seq<NumberValue>)
    ensures |r| == |xs| && forall i :: 0 <= i < |xs| ==> r[i] == ToNumber(xs[i])
  {
    seq(|xs|, i requires 0 <= i < |xs| => ToNumber(xs[i]))
  }

  /** The hook's initial state: subcategories through `Number`, brands and
      sizes as given, each deduplicated; prices default to '' and sort to
      'default'. */
  function Initial(p: Params): (st: HookState)
    ensures NoDup(st.selectedSubcategories) && NoDup(st.selectedBrands) && NoDup(st.selectedSizes)
    ensures forall n :: n in st.selectedSubcategories <==> n in NumberAll(GetAll(p, "subcategory"))
    ensures forall b :: b in st.selectedBrands <==> b in GetAll(p, "brands")
    ensures forall s :: s in st.selectedSizes <==> s in GetAll(p, "sizes")
    ensures GetAll(p, "minPrice") == [] ==> st.minPrice == ""
    ensures GetAll(p, "maxPrice") == [] ==> st.maxPrice == ""
    ensures GetAll(p, "sort") == [] ==> st.sort == "default"
  {
    HookState(
      FromSeq(NumberAll(GetAll(p, "subcategory"))),
      FromSeq(GetAll(p, "brands")),
      FromSeq(GetAll(p, "sizes")),
      CategoryFilters.GetOrElse(p, "minPrice", ""),
      CategoryFilters.GetOrElse(p, "maxPrice", ""),
      CategoryFilters.GetOrElse(p, "sort", "default"))
  }

  /** `handleBrandChange(brand)`: the brand set is toggled, then the
      `brands` pairs of the query are replaced by the new set, appended at
      the end; every other pair is kept in order. */
  function BrandChange(st: HookState, p: Params, brand: string): (r: (HookState, Params))
    ensures r.0 == st.(selectedBrands := Toggle(st.selectedBrands, brand))
    ensures brand in r.0.selectedBrands <==> brand !in st.selectedBrands
    ensures GetAll(r.1, "brands") == r.0.selectedBrands
    ensures forall k :: k != "brands" ==> GetAll(r.1, k) == GetAll(p, k)
    ensures Delete(r.1, "brands") == Delete(p, "brands")
  {
    var brands := Toggle(st.selectedBrands, brand);
    var params := AppendAll(Delete(p, "brands"), "brands", brands);
    BrandParams(p, brands);
    (st.(selectedBrands := brands), params)
  }

  lemma BrandParamsOther(p: Params, brands: seq<string>, k: string)
    requires k != "brands"
    ensures GetAll(AppendAll(Delete(p, "brands"), "brands", brands), k) == GetAll(p, k)
  {
    GetAllAppendAll(Delete(p, "brands"), "brands", brands, k);
    GetAllDeleteOther(p, "brands", k);
  }

  lemma BrandParams(p: Params, brands: seq<string>)
    ensures GetAll(AppendAll(Delete(p, "brands"), "brands", brands), "brands") == brands
    ensures forall k :: k != "brands" ==> GetAll(AppendAll(Delete(p, "brands"), "brands", brands), k) == GetAll(p, k)
    ensures Delete(AppendAll(Delete(p, "brands"), "brands", brands), "brands") == Delete(p, "brands")
  {
    var d := Delete(p, "brands");
    GetAllAppendAll(d, "brands", brands, "brands");
    forall k | k != "brands" ensures GetAll(AppendAll(d, "brands", brands), k) == GetAll(p, k) {
      BrandParamsOther(p, brands, k);
    }
    DeleteAppendAll(d, "brands", brands);
    DeleteIdempotent(p, "brands");
  }

  /** After a brand change, reading the rewritten query back gives the new
      brand set exactly, and the other filters as before. */
  lemma BrandChangeReadsBack(st: HookState, p: Params, brand: string)
    requires NoDup(st.selectedBrands)
    ensures Initial(BrandChange(st, p, brand).1).selectedBrands == BrandChange(st, p, brand).0.selectedBrands
    ensures Initial(BrandChange(st, p, brand).1) == Initial(p).(selectedBrands := BrandChange(st, p, brand).0.selectedBrands)
  {
    var brands := Toggle(st.selectedBrands, brand);
    ToggleNoDup(st.selectedBrands, brand);
    FromSeqOfNoDup(brands);
    BrandParams(p, brands);
    BrandParamsOther(p, brands, "sizes");
    BrandParamsOther(p, brands, "subcategory");
    BrandParamsOther(p, brands, "sort");
    BrandParamsOther(p, brands, "minPrice");
    BrandParamsOther(p, brands, "maxPrice");
  }

  /** Changing the same brand twice gives back the same set of brands and
      every other key's pairs. The brand pairs themselves come back only when
      the brand was not selected: a selected brand is deleted and then
      re-added at the end. */
  lemma BrandChangeTwice(st: HookState, p: Params, brand: string)
    ensures var (st1, p1) := BrandChange(st, p, brand);
      var (st2, p2) := BrandChange(st1, p1, brand);
      (forall b :: b in st2.selectedBrands <==> b in st.selectedBrands) &&
      (forall k :: k != "brands" ==> GetAll(p2, k) == GetAll(p, k)) &&
      GetAll(p2, "brands") == st2.selectedBrands &&
      (brand !in st.selectedBrands ==> st2 == st && GetAll(p2, "brands") == st.selectedBrands) &&
      (brand in st.selectedBrands ==>
         st2 == st.(selectedBrands := Without(st.selectedBrands, brand) + [brand]))
  {
    ToggleTwice(st.selectedBrands, brand);
  }

  /** With brands ["a", "b"] selected, changing "a" twice leaves them as
      ["b", "a"]: the set is the same, the order of the pairs is not. */
  lemma BrandChangeTwiceReorders(st: HookState, p: Params)
    requires st.selectedBrands == ["a", "b"]
    ensures var (st1, p1) := BrandChange(st, p, "a");
      var (st2, p2) := BrandChange(st1, p1, "a");
      st2.selectedBrands == ["b", "a"] && GetAll(p2, "brands") == ["b", "a"] &&
      st2.selectedBrands != st.selectedBrands
  {
    assert Without(["a", "b"], "a") == ["b"] by {
      assert ["a", "b"][1..] == ["b"];
      assert ["b"][1..] == [];
    }
    assert Toggle(["a", "b"], "a") == ["b"];
    assert Toggle(["b"], "a") == ["b", "a"];
  }
}
