/**
 * The cart page's order summary: the subtotal of the lines, the coupon
 * discount clamped to the subtotal, the total, and the quantity buttons of
 * each line. Prices are exact reals; the browser's floating point and the
 * currency formatting are not modelled.
 */
module Pricing {
  import opened Wrappers
  import opened Cart

  /** What one line costs: unit price times quantity. */
  function LineTotal(l: CartLine): real {
    l.variant.price * l.quantity as real
  }

  /** The subtotal: the sum of the line totals. */
  function Subtotal(lines: seq<CartLine>): real {
    if lines == [] then 0.0 else LineTotal(lines[0]) + Subtotal(lines[1..])
  }

  /** No line has a negative unit price. */
  predicate PricesNonNegative(lines: seq<CartLine>) {
    forall i :: 0 <= i < |lines| ==> lines[i].variant.price >= 0.0
  }

  /** The discount the coupon grants on `subtotal` before clamping: a
      percentage of it for a `PERCENTAGE` coupon, the face value for any
      other type. */
  function RawDiscount(c: Coupon, subtotal: real): real {
    if c.discountType == "PERCENTAGE" then subtotal * c.discountValue / 100.0 else c.discountValue
  }

  /** The discount shown: none without a coupon, otherwise the coupon's
      discount clamped so that it never exceeds the subtotal. */
  function Discount(coupon: Option<Coupon>, subtotal: real): (d: real)
    ensures coupon.None? ==> d == 0.0
    ensures coupon.Some? ==> d <= subtotal && d <= RawDiscount(coupon.value, subtotal)
    ensures coupon.Some? ==> d == subtotal || d == RawDiscount(coupon.value, subtotal)
  {
    match coupon
    case None => 0.0
    case Some(c) =>
      var raw := RawDiscount(c, subtotal);
      if raw < subtotal then raw else subtotal
  }

  /** The total the cart page shows: subtotal minus discount. It is never
      negative once a coupon is applied, whatever the coupon says. */
  function Total(s: CartState): (t: real)
    ensures s.coupon.None? ==> t == Subtotal(s.lines)
    ensures s.coupon.Some? ==> 0.0 <= t
    ensures s.coupon.Some? && 0.0 <= RawDiscount(s.coupon.value, Subtotal(s.lines)) && 0.0 <= Subtotal(s.lines) ==>
      t <= Subtotal(s.lines)
    ensures s.coupon.Some? && 0.0 <= RawDiscount(s.coupon.value, Subtotal(s.lines)) <= Subtotal(s.lines) ==>
      t == Subtotal(s.lines) - RawDiscount(s.coupon.value, Subtotal(s.lines))
    ensures s.coupon.Some? && RawDiscount(s.coupon.value, Subtotal(s.lines)) >= Subtotal(s.lines) ==>
      t == 0.0
  {
    var sub := Subtotal(s.lines);
    sub - Discount(s.coupon, sub)
  }

  /** The subtotal of a concatenation is the sum of the subtotals. */
  lemma {:induction false} SubtotalConcat(a: seq<CartLine>, b: seq<CartLine>)
    ensures Subtotal(a + b) == Subtotal(a) + Subtotal(b)
  {
    if a == [] {
      assert a + b == b;
    } else {
      assert (a + b)[1..] == a[1..] + b;
      SubtotalConcat(a[1..], b);
    }
  }

  /** With non-negative prices and positive quantities the subtotal is not negative. */
  lemma {:induction false} SubtotalNonNegative(lines: seq<CartLine>)
    requires PricesNonNegative(lines) && PositiveQuantities(lines)
    ensures Subtotal(lines) >= 0.0
  {
    if lines != [] {
      assert lines[0].variant.price >= 0.0 && lines[0].quantity >= 1;
      SubtotalNonNegative(lines[1..]);
    }
  }

  /** The total is never negative, with or without a coupon. */
  lemma TotalNonNegative(s: CartState)
    requires PricesNonNegative(s.lines) && PositiveQuantities(s.lines)
    ensures Total(s) >= 0.0
  {
    SubtotalNonNegative(s.lines);
  }

  /** A percentage coupon of at most 100 takes that share off the subtotal. */
  lemma PercentageTotal(s: CartState)
    requires s.coupon.Some? && s.coupon.value.discountType == "PERCENTAGE"
    requires 0.0 <= s.coupon.value.discountValue <= 100.0 && Subtotal(s.lines) >= 0.0
    ensures Total(s) == Subtotal(s.lines) * (100.0 - s.coupon.value.discountValue) / 100.0
  {
    var sub := Subtotal(s.lines);
    var v := s.coupon.value.discountValue;
    var share := sub * v / 100.0;
    PercentOf(sub, v);
    assert Discount(s.coupon, sub) == share;
  }

  /** Taking v percent off: the share never exceeds the whole, and what is
      left is the remaining (100 - v) percent. */
  lemma PercentOf(sub: real, v: real)
    requires 0.0 <= v <= 100.0 && sub >= 0.0
    ensures sub * v / 100.0 <= sub
    ensures sub - sub * v / 100.0 == sub * (100.0 - v) / 100.0
  {
    assert sub * v <= sub * 100.0 by {
      assert sub * (100.0 - v) >= 0.0;
    }
  }

  /** A fixed-amount coupon no larger than the subtotal is taken off in full;
      a larger one brings the total to exactly zero. */
  lemma FixedTotal(s: CartState)
    requires s.coupon.Some? && s.coupon.value.discountType != "PERCENTAGE"
    ensures s.coupon.value.discountValue <= Subtotal(s.lines) ==> Total(s) == Subtotal(s.lines) - s.coupon.value.discountValue
    ensures s.coupon.value.discountValue >= Subtotal(s.lines) ==> Total(s) == 0.0
  {
  }

  /** Adding a unit raises the subtotal by that unit's price: the new
      variant's price for a new line, the stored line's price otherwise. */
  lemma AddRaisesSubtotal(s: CartState, v: Catalog.Variant, p: Catalog.Product)
    requires UniqueIds(s.lines)
    ensures !Contains(s.lines, v.id) ==> Subtotal(Add(s, v, p).lines) == Subtotal(s.lines) + v.price
    ensures forall k :: 0 <= k < |s.lines| && s.lines[k].variant.id == v.id ==>
      Subtotal(Add(s, v, p).lines) == Subtotal(s.lines) + s.lines[k].variant.price
  {
    if !Contains(s.lines, v.id) {
      SubtotalConcat(s.lines, [CartLine(v, 1, p.name, p.brand)]);
    }
    forall k | 0 <= k < |s.lines| && s.lines[k].variant.id == v.id
      ensures Subtotal(Add(s, v, p).lines) == Subtotal(s.lines) + s.lines[k].variant.price
    {
      IncrementUniqueSubtotal(s.lines, k);
    }
  }

  lemma {:induction false} IncrementUniqueSubtotal(lines: seq<CartLine>, k: nat)
    requires UniqueIds(lines) && k < |lines|
    ensures Subtotal(IncrementMatching(lines, lines[k].variant.id)) == Subtotal(lines) + lines[k].variant.price
  {
    var id := lines[k].variant.id;
    var r := IncrementMatching(lines, id);
    var t := lines[1..];
    assert r[1..] == IncrementMatching(t, id);
    UniqueTail(lines);
    if k == 0 {
      IncrementAbsent(t, id);
      assert r[0] == lines[0].(quantity := lines[0].quantity + 1);
    } else {
      assert t[k - 1] == lines[k];
      IncrementUniqueSubtotal(t, k - 1);
      assert r[0] == lines[0];
    }
  }

  /** Removing line k takes exactly its line total off the subtotal. */
  lemma RemoveLowersSubtotal(s: CartState, k: nat)
    requires UniqueIds(s.lines) && k < |s.lines|
    ensures Subtotal(Remove(s, s.lines[k].variant.id).lines) == Subtotal(s.lines) - LineTotal(s.lines[k])
  {
    RemoveCutsOneLine(s, k);
    assert s.lines == s.lines[..k] + ([s.lines[k]] + s.lines[k + 1..]);
    SubtotalConcat(s.lines[..k], [s.lines[k]] + s.lines[k + 1..]);
    SubtotalConcat([s.lines[k]], s.lines[k + 1..]);
    SubtotalConcat(s.lines[..k], s.lines[k + 1..]);
  }

  /** The minus button of a line: ask for one unit fewer. */
  function Minus(s: CartState, l: CartLine): (r: CartState)
    ensures l.quantity <= 1 ==> r == Remove(s, l.variant.id)
    ensures l.quantity > 1 ==> |r.lines| == |s.lines| && r.coupon == s.coupon
    ensures l.quantity > 1 ==> forall i :: 0 <= i < |s.lines| ==>
      r.lines[i] == if s.lines[i].variant.id == l.variant.id then s.lines[i].(quantity := l.quantity - 1) else s.lines[i]
  {
    UpdateQuantity(s, l.variant.id, l.quantity - 1)
  }

  /** The plus button of a line: ask for one unit more. */
  function Plus(s: CartState, l: CartLine): (r: CartState)
    ensures l.quantity >= 0 ==> |r.lines| == |s.lines| && r.coupon == s.coupon
    ensures l.quantity >= 0 ==> forall i :: 0 <= i < |s.lines| ==>
      r.lines[i] == if s.lines[i].variant.id == l.variant.id then s.lines[i].(quantity := l.quantity + 1) else s.lines[i]
    ensures l.quantity < 0 ==> r == Remove(s, l.variant.id)
  {
    UpdateQuantity(s, l.variant.id, l.quantity + 1)
  }

  /** Pressing minus on the line at quantity 1 removes it: the cart loses
      exactly that line, the others keep their order. */
  lemma MinusAtOneRemoves(s: CartState, k: nat)
    requires UniqueIds(s.lines) && k < |s.lines| && s.lines[k].quantity == 1
    ensures Minus(s, s.lines[k]).lines == s.lines[..k] + s.lines[k + 1..]
  {
    RemoveCutsOneLine(s, k);
  }

  /** Pressing plus and then minus on the same line restores the cart. */
  lemma PlusThenMinus(s: CartState, k: nat)
    requires Valid(s.lines) && k < |s.lines|
    ensures Minus(Plus(s, s.lines[k]), Plus(s, s.lines[k]).lines[k]) == s
  {
    var l := s.lines[k];
    var mid := Plus(s, l);
    assert mid.lines[k].quantity == l.quantity + 1;
    var r := Minus(mid, mid.lines[k]);
    assert |r.lines| == |s.lines|;
    forall i | 0 <= i < |s.lines| ensures r.lines[i] == s.lines[i] {
      assert i != k ==> s.lines[i].variant.id != l.variant.id;
    }
  }
}
