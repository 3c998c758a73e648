/**
 * The shopping-cart context: an ordered list of cart lines and at most one
 * applied coupon, with the operations the context hands to the pages
 * (add, remove, set quantity, clear, apply and remove a coupon) and the
 * navbar's item count. Persistence to local storage is not modelled.
 */
module Cart {
  import opened Wrappers
  import opened Http
  import opened Text
  import opened Toasts
  import opened Catalog

  /** One cart entry: the variant as added, its quantity and the product's
      name and brand copied in when the line was created. */
  datatype CartLine = CartLine(variant: Variant, quantity: int, productName: string, productBrand: string)

  /** A coupon as the validation endpoint returns it. */
  datatype Coupon = Coupon(code: string, discountType: string, discountValue: real)

  datatype CartState = CartState(lines: seq<CartLine>, coupon: Option<Coupon>)

  /** The state a fresh session starts from. */
  const EmptyCart := CartState([], None)

  predicate Contains(lines: seq<CartLine>, id: int) {
    exists i :: 0 <= i < |lines| && lines[i].variant.id == id
  }

  /** No two lines hold the same variant. */
  predicate UniqueIds(lines: seq<CartLine>) {
    forall i, j :: 0 <= i < j < |lines| ==> lines[i].variant.id != lines[j].variant.id
  }

  /** Every line holds at least one unit. */
  predicate PositiveQuantities(lines: seq<CartLine>) {
    forall i :: 0 <= i < |lines| ==> lines[i].quantity >= 1
  }

  /** The cart invariant: unique variant ids and quantities of at least 1. */
  predicate Valid(lines: seq<CartLine>) {
    UniqueIds(lines) && PositiveQuantities(lines)
  }

  /** The badge count in the navbar: the number of units in the cart. */
  function ItemCount(lines: seq<CartLine>): int {
    if lines == [] then 0 else lines[0].quantity + ItemCount(lines[1..])
  }

  /** Every line holding `id` gets one more unit; the others are kept. */
  function IncrementMatching(lines: seq<CartLine>, id: int): (r: seq<CartLine>)
    ensures |r| == |lines|
    ensures forall i :: 0 <= i < |lines| && lines[i].variant.id == id ==> r[i] == lines[i].(quantity := lines[i].quantity + 1)
    ensures forall i :: 0 <= i < |lines| && lines[i].variant.id != id ==> r[i] == lines[i]
  {
    if lines == [] then []
    else
      var head := if lines[0].variant.id == id then lines[0].(quantity := lines[0].quantity + 1) else lines[0];
      [head] + IncrementMatching(lines[1..], id)
  }

  /** Every line holding `id` gets quantity `q`; the others are kept. */
  function SetQuantityMatching(lines: seq<CartLine>, id: int, q: int): (r: seq<CartLine>)
    ensures |r| == |lines|
    ensures forall i :: 0 <= i < |lines| && lines[i].variant.id == id ==> r[i] == lines[i].(quantity := q)
    ensures forall i :: 0 <= i < |lines| && lines[i].variant.id != id ==> r[i] == lines[i]
  {
    if lines == [] then []
    else
      var head := if lines[0].variant.id == id then lines[0].(quantity := q) else lines[0];
      [head] + SetQuantityMatching(lines[1..], id, q)
  }

  /** The lines without any line holding `id`, in their original order. */
  function RemoveMatching(lines: seq<CartLine>, id: int): (r: seq<CartLine>)
    ensures |r| <= |lines|
    ensures forall l :: l in r <==> l in lines && l.variant.id != id
    ensures !Contains(r, id)
  {
    if lines == [] then []
    else if lines[0].variant.id == id then RemoveMatching(lines[1..], id)
    else [lines[0]] + RemoveMatching(lines[1..], id)
  }

  /** `addToCart(variant, product)`: a variant already in the cart gets one
      more unit; a new one is appended with quantity 1 and the product's name
      and brand. The coupon is untouched. */
  function Add(s: CartState, v: Variant, p: Product): (r: CartState)
    ensures r.coupon == s.coupon
    ensures Contains(s.lines, v.id) ==> |r.lines| == |s.lines|
    ensures !Contains(s.lines, v.id) ==> r.lines == s.lines + [CartLine(v, 1, p.name, p.brand)]
    ensures Contains(r.lines, v.id)
  {
    if Contains(s.lines, v.id) then s.(lines := IncrementMatching(s.lines, v.id))
    else
      var lines := s.lines + [CartLine(v, 1, p.name, p.brand)];
      assert lines[|s.lines|].variant.id == v.id;
      s.(lines := lines)
  }

  /** `removeFromCart(id)`: drops the line holding `id`; the coupon is untouched. */
  function Remove(s: CartState, id: int): (r: CartState)
    ensures r.coupon == s.coupon
    ensures !Contains(r.lines, id)
    ensures forall l :: l in r.lines <==> l in s.lines && l.variant.id != id
  {
    s.(lines := RemoveMatching(s.lines, id))
  }

  /** `updateQuantity(id, q)`: below 1 the line is removed, otherwise only the
      quantity of the line holding `id` changes. */
  function UpdateQuantity(s: CartState, id: int, q: int): (r: CartState)
    ensures q < 1 ==> r == Remove(s, id)
    ensures q >= 1 ==> r.coupon == s.coupon && |r.lines| == |s.lines|
    ensures q >= 1 ==> forall i :: 0 <= i < |s.lines| ==>
      r.lines[i] == if s.lines[i].variant.id == id then s.lines[i].(quantity := q) else s.lines[i]
  {
    if q < 1 then Remove(s, id) else s.(lines := SetQuantityMatching(s.lines, id, q))
  }

  /** `clearCart()`: the cart is emptied and the coupon dropped with it. */
  function Clear(s: CartState): (r: CartState)
    ensures r.lines == [] && r.coupon.None?
    ensures ItemCount(r.lines) == 0
  {
    EmptyCart
  }

  /** What applying a coupon did: the new state, the code sent to the
      validation endpoint (none when nothing was sent) and the notification. */
  datatype CouponOutcome = CouponOutcome(state: CartState, request: Option<string>, toast: Toast)

  /** `applyCoupon(code)`: a blank code is refused before any request; a
      validated coupon replaces the applied one wholesale; a failed validation
      clears it. The lines never change. `response` is what the validation
      endpoint would answer and is only consulted when a request is sent. */
  function ApplyCoupon(s: CartState, code: string, response: Response<Coupon>): (o: CouponOutcome)
    ensures o.state.lines == s.lines
    ensures IsBlank(code) <==> o.request.None?
    ensures IsBlank(code) ==> o.state == s && o.toast == ErrorToast("Please enter a coupon code.")
    ensures !IsBlank(code) ==> o.request == Some(code)
    ensures !IsBlank(code) && response.Ok? ==> o.state.coupon == Some(response.data) && o.toast.SuccessToast?
    ensures !IsBlank(code) && response.Err? ==> o.state.coupon.None? && o.toast == ErrorToast("Invalid or expired coupon code.")
  {
    if IsBlank(code) then CouponOutcome(s, None, ErrorToast("Please enter a coupon code."))
    else match response
      case Ok(c) =>
        CouponOutcome(s.(coupon := Some(c)), Some(code), SuccessToast("Coupon \"" + c.code + "\" applied successfully!"))
      case Err(_, _) =>
        CouponOutcome(s.(coupon := None), Some(code), ErrorToast("Invalid or expired coupon code."))
  }

  /** `removeCoupon()`: no coupon afterwards, the lines untouched. */
  function RemoveCoupon(s: CartState): (r: CartState)
    ensures r.coupon.None? && r.lines == s.lines
  {
    s.(coupon := None)
  }

  /** The empty cart satisfies the invariant. */
  lemma EmptyCartValid()
    ensures Valid(EmptyCart.lines) && ItemCount(EmptyCart.lines) == 0
  {
  }

  /** Adding keeps the cart invariant. */
  lemma AddPreservesValid(s: CartState, v: Variant, p: Product)
    requires Valid(s.lines)
    ensures Valid(Add(s, v, p).lines)
  {
    var r := Add(s, v, p).lines;
    if !Contains(s.lines, v.id) {
      forall i, j | 0 <= i < j < |r| ensures r[i].variant.id != r[j].variant.id {
        if j == |s.lines| {
          assert r[i] == s.lines[i];
        }
      }
    }
  }

  /** Adding a variant already in the cart raises exactly its line by one unit
      and leaves every other line as it was. */
  lemma AddExistingLine(s: CartState, v: Variant, p: Product, k: nat)
    requires UniqueIds(s.lines) && k < |s.lines| && s.lines[k].variant.id == v.id
    ensures Add(s, v, p).lines[k].quantity == s.lines[k].quantity + 1
    ensures Add(s, v, p).lines[k].variant == s.lines[k].variant
    ensures forall i :: 0 <= i < |s.lines| && i != k ==> Add(s, v, p).lines[i] == s.lines[i]
  {
    assert Contains(s.lines, v.id);
  }

  /** The navbar count after adding: exactly one more unit. */
  lemma {:induction false} AddIncrementsItemCount(s: CartState, v: Variant, p: Product)
    requires UniqueIds(s.lines)
    ensures ItemCount(Add(s, v, p).lines) == ItemCount(s.lines) + 1
  {
    if Contains(s.lines, v.id) {
      IncrementUniqueCount(s.lines, v.id);
    } else {
      ItemCountConcat(s.lines, [CartLine(v, 1, p.name, p.brand)]);
    }
  }

  lemma {:induction false} ItemCountConcat(a: seq<CartLine>, b: seq<CartLine>)
    ensures ItemCount(a + b) == ItemCount(a) + ItemCount(b)
  {
    if a == [] {
      assert a + b == b;
    } else {
      assert (a + b)[1..] == a[1..] + b;
      ItemCountConcat(a[1..], b);
    }
  }

  lemma {:induction false} IncrementAbsent(lines: seq<CartLine>, id: int)
    requires !Contains(lines, id)
    ensures IncrementMatching(lines, id) == lines
  {
  }

  /** The tail of a cart with unique ids has unique ids, none equal to the head's. */
  lemma UniqueTail(lines: seq<CartLine>)
    requires UniqueIds(lines) && lines != []
    ensures UniqueIds(lines[1..])
    ensures !Contains(lines[1..], lines[0].variant.id)
  {
    var t := lines[1..];
    forall i, j | 0 <= i < j < |t| ensures t[i].variant.id != t[j].variant.id {
      assert t[i] == lines[i + 1] && t[j] == lines[j + 1];
    }
    forall i | 0 <= i < |t| ensures t[i].variant.id != lines[0].variant.id {
      assert t[i] == lines[i + 1];
    }
  }

  lemma {:induction false} IncrementUniqueCount(lines: seq<CartLine>, id: int)
    requires UniqueIds(lines) && Contains(lines, id)
    ensures ItemCount(IncrementMatching(lines, id)) == ItemCount(lines) + 1
  {
    var r := IncrementMatching(lines, id);
    var t := lines[1..];
    assert r[1..] == IncrementMatching(t, id);
    UniqueTail(lines);
    if lines[0].variant.id == id {
      IncrementAbsent(t, id);
      assert r[0].quantity == lines[0].quantity + 1;
    } else {
      var k :| 0 <= k < |lines| && lines[k].variant.id == id;
      assert t[k - 1] == lines[k];
      IncrementUniqueCount(t, id);
      assert r[0] == lines[0];
    }
  }

  /** Removing keeps the order of the remaining lines: on a cart with unique
      ids, removing the variant at position k cuts out exactly that line. */
  lemma {:induction false} RemoveCutsOneLine(s: CartState, k: nat)
    requires UniqueIds(s.lines) && k < |s.lines|
    ensures Remove(s, s.lines[k].variant.id).lines == s.lines[..k] + s.lines[k + 1..]
  {
    RemoveAt(s.lines, k);
  }

  /** Line k is the only line holding its variant. */
  predicate OnlyAt(lines: seq<CartLine>, k: nat)
    requires k < |lines|
  {
    forall i :: 0 <= i < |lines| && i != k ==> lines[i].variant.id != lines[k].variant.id
  }

  lemma {:induction false} RemoveAt(lines: seq<CartLine>, k: nat)
    requires k < |lines| && OnlyAt(lines, k)
    ensures RemoveMatching(lines, lines[k].variant.id) == lines[..k] + lines[k + 1..]
    decreases k, 2
  {
    if k == 0 {
      RemoveHead(lines);
      assert lines[..0] + lines[1..] == lines[1..];
    } else {
      RemoveLater(lines, k);
    }
  }

  lemma RemoveHead(lines: seq<CartLine>)
    requires 0 < |lines| && OnlyAt(lines, 0)
    ensures RemoveMatching(lines, lines[0].variant.id) == lines[1..]
  {
    var id := lines[0].variant.id;
    var tail := lines[1..];
    forall i | 0 <= i < |tail| ensures tail[i].variant.id != id {
      assert tail[i] == lines[i + 1];
    }
    RemoveAbsent(tail, id);
  }

  lemma {:induction false} RemoveLater(lines: seq<CartLine>, k: nat)
    requires 0 < k < |lines| && OnlyAt(lines, k)
    ensures RemoveMatching(lines, lines[k].variant.id) == lines[..k] + lines[k + 1..]
    decreases k, 1
  {
    var id := lines[k].variant.id;
    var tail := lines[1..];
    assert tail[k - 1] == lines[k];
    forall i | 0 <= i < |tail| && i != k - 1 ensures tail[i].variant.id != id {
      assert tail[i] == lines[i + 1];
    }
    assert lines[0].variant.id != id;
    RemoveAt(tail, k - 1);
    calc {
      RemoveMatching(lines, id);
      [lines[0]] + RemoveMatching(tail, id);
      [lines[0]] + (tail[..k - 1] + tail[k..]);
      ([lines[0]] + tail[..k - 1]) + tail[k..];
      { assert lines[..k] == [lines[0]] + tail[..k - 1]; assert lines[k + 1..] == tail[k..]; }
      lines[..k] + lines[k + 1..];
    }
  }

  /** Removing a variant that is not in the cart changes nothing. */
  lemma {:induction false} RemoveAbsent(lines: seq<CartLine>, id: int)
    requires forall i :: 0 <= i < |lines| ==> lines[i].variant.id != id
    ensures RemoveMatching(lines, id) == lines
  {
    if lines != [] {
      RemoveAbsent(lines[1..], id);
    }
  }

  /** Filtering lines out keeps ids unique and quantities positive. */
  lemma {:induction false} RemovePreservesValid(lines: seq<CartLine>, id: int)
    requires Valid(lines)
    ensures Valid(RemoveMatching(lines, id))
  {
    if lines != [] {
      RemovePreservesValid(lines[1..], id);
      var rest := RemoveMatching(lines[1..], id);
      if lines[0].variant.id != id {
        var r := [lines[0]] + rest;
        forall j | 0 < j < |r| ensures r[0].variant.id != r[j].variant.id {
          assert r[j] in rest;
          assert r[j] in lines[1..];
        }
      }
    }
  }

  /** Removing, and setting a quantity, keep the cart invariant. */
  lemma UpdateQuantityPreservesValid(s: CartState, id: int, q: int)
    requires Valid(s.lines)
    ensures Valid(UpdateQuantity(s, id, q).lines)
  {
    if q < 1 {
      RemovePreservesValid(s.lines, id);
    }
  }

  /** Once a request is sent, the outcome does not depend on the coupon applied
      before: the new coupon replaces the old one wholesale, or clears it. */
  lemma ApplyCouponReplacesWholesale(s1: CartState, s2: CartState, code: string, response: Response<Coupon>)
    requires s1.lines == s2.lines && !IsBlank(code)
    ensures ApplyCoupon(s1, code, response).state == ApplyCoupon(s2, code, response).state
  {
  }
}
