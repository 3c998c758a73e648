/**
 * What the storefront and the admin area show of an order: the status
 * badges, the short tracking id, the tracking page, the customer's order
 * history and the admin order list sorted newest first. Order dates are
 * milliseconds since the epoch.
 */
module Orders {
  import opened Wrappers
  import opened Http
  import opened Text
  import opened Toasts

  datatype OrderItem = OrderItem(
    productName: string,
    variantColor: string,
    variantSize: string,
    quantity: int,
    price: real)

  datatype Order = Order(
    id: int,
    trackingNumber: string,
    date: int,
    status: string,
    totalPrice: real,
    customerUsername: string,
    items: seq<OrderItem>)

  // ---------------------------------------------------------------- badges

  const GrayBadge := "bg-gray-100 text-gray-800"
  const RedBadge := "bg-red-100 text-red-800"
  const YellowBadge := "bg-yellow-100 text-yellow-800"
  const BlueBadge := "bg-blue-100 text-blue-800"
  const GreenBadge := "bg-green-100 text-green-800"
  const DefaultBadge := "bg-secondary-100 text-secondary-800"

  /** The statuses an order moves through after it is placed. */
  predicate IsFulfilmentStatus(status: string) {
    status == "PROCESSING" || status == "SHIPPED" || status == "DELIVERED"
  }

  /** The statuses of an order whose online payment has not gone through. */
  predicate IsPaymentStatus(status: string) {
    status == "PENDING_PAYMENT" || status == "PAYMENT_FAILED"
  }

  /** The badge table of the admin order list: the fulfilment statuses only. */
  function AdminBadge(status: string): (c: string)
    ensures c != DefaultBadge <==> IsFulfilmentStatus(status)
    ensures status == "PROCESSING" ==> c == YellowBadge
    ensures status == "SHIPPED" ==> c == BlueBadge
    ensures status == "DELIVERED" ==> c == GreenBadge
  {
    match status
    case "PROCESSING" => YellowBadge
    case "SHIPPED" => BlueBadge
    case "DELIVERED" => GreenBadge
    case _ => DefaultBadge
  }

  /** The badge table of the tracking page and the order history: the
      payment statuses get a colour of their own as well. */
  function CustomerBadge(status: string): (c: string)
    ensures c != DefaultBadge <==> IsFulfilmentStatus(status) || IsPaymentStatus(status)
    ensures status == "PENDING_PAYMENT" ==> c == GrayBadge
    ensures status == "PAYMENT_FAILED" ==> c == RedBadge
  {
    match status
    case "PENDING_PAYMENT" => GrayBadge
    case "PAYMENT_FAILED" => RedBadge
    case _ => AdminBadge(status)
  }

  /** The two tables agree on every status except the two payment statuses,
      which the admin list shows with the default badge. */
  lemma BadgeTablesAgree(status: string)
    ensures CustomerBadge(status) == AdminBadge(status) <==> !IsPaymentStatus(status)
    ensures IsPaymentStatus(status) ==> AdminBadge(status) == DefaultBadge
  {
  }

  /** Distinct known statuses get distinct badges in the customer table. */
  lemma CustomerBadgesDistinct(s: string, t: string)
    requires IsFulfilmentStatus(s) || IsPaymentStatus(s)
    requires IsFulfilmentStatus(t) || IsPaymentStatus(t)
    ensures CustomerBadge(s) == CustomerBadge(t) <==> s == t
  {
  }

  // ---------------------------------------------------------------- ids

  /** The id shown in lists: the first eight characters of the tracking
      number, upper-cased. */
  function ShortId(trackingNumber: string): (r: string)
    ensures |r| == if |trackingNumber| < 8 then |trackingNumber| else 8
    ensures forall i :: 0 <= i < |r| ==> r[i] == UpperChar(trackingNumber[i])
  {
    ToUpper(Prefix(trackingNumber, 8))
  }

  /** What the admin list's copy button puts on the clipboard: the whole
      tracking number. */
  function CopiedId(o: Order): (r: string)
    ensures |r| == |o.trackingNumber| && r <= o.trackingNumber
  {
    o.trackingNumber
  }

  /** The shown id is the start of the copied one, upper-cased; it is the
      whole id only when that has at most eight characters and no lower-case
      letters. Shortening twice changes nothing. */
  lemma ShortIdOfCopied(o: Order)
    ensures ShortId(CopiedId(o)) <= ToUpper(CopiedId(o))
    ensures ShortId(CopiedId(o)) == CopiedId(o) <==>
      |o.trackingNumber| <= 8 && forall i :: 0 <= i < |o.trackingNumber| ==> UpperChar(o.trackingNumber[i]) == o.trackingNumber[i]
    ensures ShortId(ShortId(CopiedId(o))) == ShortId(CopiedId(o))
  {
    var t := o.trackingNumber;
    ToUpperIdempotent(Prefix(t, 8));
  }

  // ---------------------------------------------------------------- tracking page

  /** The tracking number as sent: trimmed, then the first '#' removed. */
  function Clean(input: string): (r: string)
    ensures |r| <= |input|
    ensures '#' !in Trim(input) ==> r == Trim(input)
    ensures '#' in Trim(input) ==> |r| == |Trim(input)| - 1
    ensures '#' in Trim(input) ==>
      exists k :: 0 <= k < |Trim(input)| && Trim(input)[k] == '#' && '#' !in Trim(input)[..k] &&
        r == Trim(input)[..k] + Trim(input)[k + 1..]
    ensures r == "" <==> AllSpace(input) || Trim(input) == "#"
  {
    var t := Trim(input);
    if '#' in t && |t| == 1 then
      assert t == "#" by {
        assert t[0] == '#';
      }
      RemoveFirst(t, '#')
    else
      RemoveFirst(t, '#')
  }

  /** Only one '#' goes: "##12" is sent as "#12". */
  lemma CleanRemovesOnlyFirstHash()
    ensures Clean("##12") == "#12"
  {
    var s := "##12";
    TrimTight(s);
    assert '#' in s;
    assert s[0] == '#' && '#' !in s[..0];
    assert IndexOf(s, '#') == 0;
  }

  /** A number with nothing around it and no '#' is sent unchanged. */
  lemma CleanOfPlain(input: string)
    requires input != [] && !IsSpace(input[0]) && !IsSpace(input[|input| - 1]) && '#' !in input
    ensures Clean(input) == input
  {
    TrimTight(input);
  }

  datatype TrackState = TrackState(order: Option<Order>, isLoading: bool, error: string)

  const TrackInitial := TrackState(None, false, "")

  const EnterNumberMessage := "Please enter a tracking number."
  const NotFoundMessage := "Order not found. Please check the tracking number and try again."
  const UnexpectedMessage := "An unexpected error occurred. Please try again later."

  /** The first half of `handleTrackOrder`: the guard, and the reset before
      the request, with the path requested if any. */
  function BeginTrack(st: TrackState, input: string): (r: (TrackState, Option<string>))
    ensures Clean(input) == "" ==> r.1.None? && r.0 == st.(error := EnterNumberMessage)
    ensures Clean(input) != "" ==> r.0 == TrackState(None, true, "")
    ensures Clean(input) != "" ==> r.1 == Some("/api/orders/track/" + Clean(input))
  {
    var clean := Clean(input);
    if clean == "" then (st.(error := EnterNumberMessage), None)
    else (TrackState(None, true, ""), Some("/api/orders/track/" + clean))
  }

  /** The second half: the answer to the request. A 404 means the order does
      not exist; every other failure gets the generic message. */
  function FinishTrack(st: TrackState, resp: Response<Order>): (r: TrackState)
    ensures !r.isLoading
    ensures resp.Ok? ==> r.order == Some(resp.data) && r.error == st.error
    ensures resp.Err? ==> r.order == st.order
    ensures resp.Err? ==> (r.error == NotFoundMessage <==> HasStatus(resp, 404))
    ensures resp.Err? && !HasStatus(resp, 404) ==> r.error == UnexpectedMessage
  {
    match resp
    case Ok(o) => st.(order := Some(o), isLoading := false)
    case Err(status, _) =>
      st.(error := if status == Some(404) then NotFoundMessage else UnexpectedMessage, isLoading := false)
  }

  /** A whole submit: the guard, or the request and its answer. */
  function Track(st: TrackState, input: string, resp: Response<Order>): (r: TrackState)
  {
    var (begun, request) := BeginTrack(st, input);
    if request.None? then begun else FinishTrack(begun, resp)
  }

  /** After a submit exactly one of three things is on screen: the order
      found, an error, or (for a blank number) whatever order was there
      before, next to the prompt. A failed lookup never leaves an old order
      visible. */
  lemma TrackOutcomes(st: TrackState, input: string, resp: Response<Order>)
    ensures var r := Track(st, input, resp);
      (Clean(input) == "" ==> r.order == st.order && r.error == EnterNumberMessage && r.isLoading == st.isLoading)
    ensures var r := Track(st, input, resp);
      (Clean(input) != "" && resp.Ok? ==> r == TrackState(Some(resp.data), false, ""))
    ensures var r := Track(st, input, resp);
      (Clean(input) != "" && resp.Err? ==> r.order.None? && !r.isLoading && r.error in {NotFoundMessage, UnexpectedMessage})
  {
  }

  // ---------------------------------------------------------------- order history

  /** One line of an order card: the product, "colour / size", and the
      quantity and unit price. */
  datatype ItemEntry = ItemEntry(title: string, detail: string, quantity: int, price: real)

  datatype OrderCard = OrderCard(heading: string, status: string, badge: string, entries: seq<ItemEntry>)

  datatype HistoryView = HistorySpinner | NoOrders(message: string) | Cards(cards: seq<OrderCard>)

  function Entry(item: OrderItem): (e: ItemEntry)
    ensures e.title == item.productName && e.quantity == item.quantity && e.price == item.price
    ensures |e.detail| == |item.variantColor| + 3 + |item.variantSize|
    ensures e.detail[..|item.variantColor|] == item.variantColor
    ensures e.detail[|item.variantColor| + 3..] == item.variantSize
  {
    var d := item.variantColor + " / " + item.variantSize;
    assert d[..|item.variantColor|] == item.variantColor;
    assert d[|item.variantColor| + 3..] == item.variantSize;
    ItemEntry(item.productName, d, item.quantity, item.price)
  }

  function Card(o: Order): (c: OrderCard)
    ensures c.heading == "Order #" + ShortId(o.trackingNumber)
    ensures c.badge == CustomerBadge(o.status) && c.status == o.status
    ensures |c.entries| == |o.items|
    ensures forall i :: 0 <= i < |o.items| ==> c.entries[i] == Entry(o.items[i])
  {
    OrderCard("Order #" + ShortId(o.trackingNumber), o.status, CustomerBadge(o.status),
      seq(|o.items|, i requires 0 <= i < |o.items| => Entry(o.items[i])))
  }

  datatype HistoryState = HistoryState(orders: seq<Order>, isLoading: bool)

  const HistoryInitial := HistoryState([], true)

  /** The history page's one fetch: the orders on success, the error toast
      and an empty list on failure; loading ends either way. */
  function FetchHistory(st: HistoryState, resp: Response<seq<Order>>): (r: (HistoryState, Option<Toast>))
    ensures !r.0.isLoading
    ensures resp.Ok? ==> r.0.orders == resp.data && r.1.None?
    ensures resp.Err? ==> r.0.orders == st.orders && r.1 == Some(ErrorToast("Failed to fetch order history."))
  {
    match resp
    case Ok(orders) => (HistoryState(orders, false), None)
    case Err(_, _) => (st.(isLoading := false), Some(ErrorToast("Failed to fetch order history.")))
  }

  function HistoryPage(st: HistoryState): (v: HistoryView)
    ensures v.HistorySpinner? <==> st.isLoading
    ensures v.NoOrders? <==> !st.isLoading && st.orders == []
    ensures v.NoOrders? ==> v.message == "You have not placed any orders yet."
    ensures v.Cards? ==> |v.cards| == |st.orders| && forall i :: 0 <= i < |st.orders| ==> v.cards[i] == Card(st.orders[i])
  {
    if st.isLoading then HistorySpinner
    else if st.orders == [] then NoOrders("You have not placed any orders yet.")
    else Cards(seq(|st.orders|, i requires 0 <= i < |st.orders| => Card(st.orders[i])))
  }

  /** A failed fetch shows the empty-history message, never an order. */
  lemma FailedHistoryShowsNoOrders(resp: Response<seq<Order>>)
    requires resp.Err?
    ensures HistoryPage(FetchHistory(HistoryInitial, resp).0).NoOrders?
  {
  }

  /** Every item of every order is listed once, in order, under its order. */
  lemma HistoryListsEveryItem(st: HistoryState, i: int, j: int)
    requires !st.isLoading && 0 <= i < |st.orders| && 0 <= j < |st.orders[i].items|
    ensures var v := HistoryPage(st);
      v.Cards? && v.cards[i].entries[j].title == st.orders[i].items[j].productName &&
      v.cards[i].entries[j].quantity == st.orders[i].items[j].quantity
  {
  }

  // ---------------------------------------------------------------- admin order list

  /** Newest first. */
  predicate NewestFirst(s: seq<Order>) {
    forall i, j :: 0 <= i < j < |s| ==> s[i].date >= s[j].date
  }

  /** Puts `o` into a newest-first list after every order at least as new. */
  function Insert(o: Order, s: seq<Order>): (r: seq<Order>)
  {
    if s == [] then [o]
    else if s[0].date < o.date then [o] + s
    else [s[0]] + Insert(o, s[1..])
  }

  lemma {:induction false} InsertPermutes(o: Order, s: seq<Order>)
    ensures multiset(Insert(o, s)) == multiset(s) + multiset{o}
  {
    if s != [] && s[0].date >= o.date {
      InsertPermutes(o, s[1..]);
      assert s == [s[0]] + s[1..];
    }
  }

  lemma {:induction false} InsertSorted(o: Order, s: seq<Order>)
    requires NewestFirst(s)
    ensures NewestFirst(Insert(o, s))
  {
    if s != [] && s[0].date >= o.date {
      var t := s[1..];
      assert NewestFirst(t) by {
        forall i, j | 0 <= i < j < |t| ensures t[i].date >= t[j].date {
          assert t[i] == s[i + 1] && t[j] == s[j + 1];
        }
      }
      InsertSorted(o, t);
      forall i | 0 <= i < |t| ensures t[i].date <= s[0].date {
        assert t[i] == s[i + 1];
      }
      InsertBounded(o, t, s[0].date);
    }
  }

  /** Inserting an order no newer than `d` into orders no newer than `d`
      gives orders no newer than `d`. */
  lemma {:induction false} InsertBounded(o: Order, s: seq<Order>, d: int)
    requires o.date <= d && forall i :: 0 <= i < |s| ==> s[i].date <= d
    ensures forall k :: 0 <= k < |Insert(o, s)| ==> Insert(o, s)[k].date <= d
  {
    if s != [] && s[0].date >= o.date {
      var t := s[1..];
      forall i | 0 <= i < |t| ensures t[i].date <= d {
        assert t[i] == s[i + 1];
      }
      InsertBounded(o, t, d);
    }
  }

  /** An order no newer than the last of a newest-first list goes at the end. */
  lemma {:induction false} InsertOldest(o: Order, s: seq<Order>)
    requires forall i :: 0 <= i < |s| ==> s[i].date >= o.date
    ensures Insert(o, s) == s + [o]
  {
    if s != [] {
      InsertOldest(o, s[1..]);
      assert [s[0]] + (s[1..] + [o]) == s + [o];
    }
  }

  /** `orders.sort((a, b) => new Date(b.orderDate) - new Date(a.orderDate))`:
      a stable sort, newest first. */
  function SortNewestFirst(orders: seq<Order>): (r: seq<Order>)
    ensures NewestFirst(r)
    ensures multiset(r) == multiset(orders)
  {
    if orders == [] then []
    else
      var init := orders[..|orders| - 1];
      var last := orders[|orders| - 1];
      var sorted := SortNewestFirst(init);
      InsertSorted(last, sorted);
      InsertPermutes(last, sorted);
      LastSplit(orders);
      Insert(last, sorted)
  }

  /** A non-empty list holds its prefix and its last element. */
  lemma LastSplit<T>(s: seq<T>)
    requires s != []
    ensures s == s[..|s| - 1] + [s[|s| - 1]]
    ensures multiset(s) == multiset(s[..|s| - 1]) + multiset{s[|s| - 1]}
  {
    assert s == s[..|s| - 1] + [s[|s| - 1]];
  }

  /** A list already newest first is left exactly as it is. */
  lemma {:induction false} SortKeepsSorted(orders: seq<Order>)
    requires NewestFirst(orders)
    ensures SortNewestFirst(orders) == orders
  {
    if orders != [] {
      var init := orders[..|orders| - 1];
      var last := orders[|orders| - 1];
      assert NewestFirst(init) by {
        forall i, j | 0 <= i < j < |init| ensures init[i].date >= init[j].date {
          assert init[i] == orders[i] && init[j] == orders[j];
        }
      }
      SortKeepsSorted(init);
      assert forall i :: 0 <= i < |init| ==> init[i].date >= last.date by {
        forall i | 0 <= i < |init| ensures init[i].date >= last.date {
          assert init[i] == orders[i];
        }
      }
      InsertOldest(last, init);
      LastSplit(orders);
    }
  }

  /** Sorting twice is sorting once. */
  lemma SortIdempotent(orders: seq<Order>)
    ensures SortNewestFirst(SortNewestFirst(orders)) == SortNewestFirst(orders)
  {
    SortKeepsSorted(SortNewestFirst(orders));
  }

  datatype AdminOrdersState = AdminOrdersState(orders: seq<Order>, isLoading: bool)

  const AdminOrdersInitial := AdminOrdersState([], true)

  /** The admin list's fetch: the response sorted newest first, or the error
      toast with the list unchanged; loading ends either way. */
  function FetchAdminOrders(st: AdminOrdersState, resp: Response<seq<Order>>): (r: (AdminOrdersState, Option<Toast>))
    ensures !r.0.isLoading
    ensures resp.Ok? ==> NewestFirst(r.0.orders) && multiset(r.0.orders) == multiset(resp.data) && r.1.None?
    ensures resp.Err? ==> r.0.orders == st.orders && r.1 == Some(ErrorToast("Failed to fetch orders."))
  {
    match resp
    case Ok(orders) => (AdminOrdersState(SortNewestFirst(orders), false), None)
    case Err(_, _) => (st.(isLoading := false), Some(ErrorToast("Failed to fetch orders.")))
  }

  /** The page subtitle, which counts the orders. */
  function Subtitle(st: AdminOrdersState): (t: string)
    ensures |t| > 24 && t[..11] == "A total of " && t[|t| - 13..] == " orders found"
    ensures ToNumber(t[11..|t| - 13]) == Finite(|st.orders|)
  {
    var n := NatToString(|st.orders|);
    var t := "A total of " + n + " orders found";
    assert t[11..|t| - 13] == n;
    ToNumberOfNatString(|st.orders|);
    t
  }

  /** The subtitle counts every order of the response. */
  lemma SubtitleCountsResponse(resp: Response<seq<Order>>)
    requires resp.Ok?
    ensures var t := Subtitle(FetchAdminOrders(AdminOrdersInitial, resp).0);
      ToNumber(t[11..|t| - 13]) == Finite(|resp.data|)
  {
    var st := FetchAdminOrders(AdminOrdersInitial, resp).0;
    assert |multiset(st.orders)| == |multiset(resp.data)|;
  }
}
