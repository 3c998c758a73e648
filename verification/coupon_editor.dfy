/**
 * The admin coupon editor: the form's fields and the `couponData` body it
 * posts to `/api/admin/coupons`.
 */
module CouponEditor {
  import opened Wrappers
  import opened Http
  import opened Text
  import opened Toasts

  /** The two options of the discount-type select. */
  datatype DiscountType = Percentage | FixedAmount

  function WireName(t: DiscountType): (s: string)
    ensures s == "PERCENTAGE" <==> t == Percentage
    ensures s == "FIXED_AMOUNT" <==> t == FixedAmount
  {
    match t
    case Percentage => "PERCENTAGE"
    case FixedAmount => "FIXED_AMOUNT"
  }

  /** The select's value back as a type; any other text is no option. */
  function ParseDiscountType(s: string): (t: Option<DiscountType>)
    ensures t.Some? <==> s == "PERCENTAGE" || s == "FIXED_AMOUNT"
  {
    if s == "PERCENTAGE" then Some(Percentage)
    else if s == "FIXED_AMOUNT" then Some(FixedAmount)
    else None
  }

  /** The select offers exactly the two types, each under its own name. */
  lemma DiscountTypeRoundTrip(t: DiscountType, s: string)
    ensures ParseDiscountType(WireName(t)) == Some(t)
    ensures ParseDiscountType(s).Some? ==> WireName(ParseDiscountType(s).value) == s
  {
  }

  /** The form as typed: the value and the date stay text. */
  datatype CouponForm = CouponForm(code: string, discountType: DiscountType, discountValue: string, expiryDate: string)

  /** The empty form; the type starts as a percentage. */
  const Initial := CouponForm("", Percentage, "", "")

  /** The posted body; `expiryDate` is null when no date was entered. */
  datatype CouponData = CouponData(code: string, discountType: string, discountValue: string, expiryDate: Option<string>)

  function Build(f: CouponForm): (d: CouponData)
    ensures |d.code| == |f.code|
    ensures forall i :: 0 <= i < |f.code| ==> d.code[i] == UpperChar(f.code[i])
    ensures d.discountType == "PERCENTAGE" || d.discountType == "FIXED_AMOUNT"
    ensures ParseDiscountType(d.discountType) == Some(f.discountType)
    ensures d.discountValue == f.discountValue
    ensures d.expiryDate.None? <==> f.expiryDate == ""
    ensures d.expiryDate.Some? ==> d.expiryDate.value == f.expiryDate
  {
    CouponData(ToUpper(f.code), WireName(f.discountType), f.discountValue,
      if f.expiryDate == "" then None else Some(f.expiryDate))
  }

  /** The form a posted body corresponds to, null date back to "". */
  function FormOf(d: CouponData): Option<CouponForm> {
    match ParseDiscountType(d.discountType)
    case None => None
    case Some(t) => Some(CouponForm(d.code, t, d.discountValue, d.expiryDate.GetOr("")))
  }

  /** Building a body loses nothing but the case of the code: reading the
      body back gives the form with its code upper-cased, and building again
      from that gives the same body. */
  lemma BuildRoundTrip(f: CouponForm)
    ensures FormOf(Build(f)) == Some(f.(code := ToUpper(f.code)))
    ensures Build(FormOf(Build(f)).value) == Build(f)
  {
    ToUpperIdempotent(f.code);
  }

  /** A fresh form posts a percentage coupon without an expiry date. */
  lemma InitialDefaults()
    ensures Build(Initial).discountType == "PERCENTAGE" && Build(Initial).expiryDate.None?
  {
  }

  /** The toast after posting and, on success, the page navigated to. */
  function SubmitDone(resp: Response<()>): (r: (Toast, Option<string>))
    ensures resp.Ok? ==> r == (SuccessToast("Coupon created successfully!"), Some("/admin/coupons"))
    ensures resp.Err? ==>
      r == (ErrorToast(ErrorText(resp, "Failed to create coupon. Code may already exist.")), None)
  {
    match resp
    case Ok(_) => (SuccessToast("Coupon created successfully!"), Some("/admin/coupons"))
    case Err(_, _) => (ErrorToast(ErrorText(resp, "Failed to create coupon. Code may already exist.")), None)
  }

  /** A submit's outcome table: the page is left for the coupon list exactly
      when the coupon was created, the toast is a success exactly then, and
      a failure always explains itself, in the server's words when it sent
      any. */
  lemma SubmitOutcomes(resp: Response<()>)
    ensures SubmitDone(resp).1.Some? <==> resp.Ok?
    ensures SubmitDone(resp).0.SuccessToast? <==> resp.Ok?
    ensures SubmitDone(resp).0.message != ""
    ensures resp.Err? && resp.message != "" ==> SubmitDone(resp).0 == ErrorToast(resp.message)
  {
  }
}
