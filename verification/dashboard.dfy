/**
 * The admin dashboard: three independent requests settled together and
 * merged into the four figures the cards show, each falling back to 0 on
 * its own when its request fails.
 */
module Dashboard {
  import opened Http
  import opened Toasts
  import CategoryEditor

  /** The one field of `GET /api/products` the dashboard reads. */
  datatype ProductsSummary = ProductsSummary(totalElements: int)

  /** `GET /api/admin/dashboard/stats`. */
  datatype ServerStats = ServerStats(totalRevenue: real, pendingOrders: int)

  datatype Stats = Stats(productCount: int, categoryCount: int, totalRevenue: real, pendingOrders: int)

  const Zero := Stats(0, 0, 0.0, 0)

  /** The page's state while the requests are out. */
  datatype State = State(stats: Stats, isLoading: bool)

  const Initial := State(Zero, true)

  /** The stats and the toasts, in order, for the three settled results.
      A failed stats request is only logged. */
  function Merge(products: Settled<ProductsSummary>,
                 categories: Settled<seq<CategoryEditor.FlatCategory>>,
                 server: Settled<ServerStats>): (r: (Stats, seq<Toast>))
    ensures products.Fulfilled? ==> r.0.productCount == products.value.totalElements
    ensures products.Rejected? ==> r.0.productCount == 0
    ensures categories.Fulfilled? ==> r.0.categoryCount == |categories.value|
    ensures categories.Rejected? ==> r.0.categoryCount == 0
    ensures server.Fulfilled? ==>
      r.0.totalRevenue == server.value.totalRevenue && r.0.pendingOrders == server.value.pendingOrders
    ensures server.Rejected? ==> r.0.totalRevenue == 0.0 && r.0.pendingOrders == 0
    ensures r.1 ==
      (if products.Rejected? then [ErrorToast("Could not load product stats.")] else []) +
      (if categories.Rejected? then [ErrorToast("Could not load category stats.")] else [])
  {
    var productCount := if products.Fulfilled? then products.value.totalElements else 0;
    var t1 := if products.Fulfilled? then [] else [ErrorToast("Could not load product stats.")];
    var categoryCount := if categories.Fulfilled? then |categories.value| else 0;
    var t2 := if categories.Fulfilled? then [] else [ErrorToast("Could not load category stats.")];
    var revenue := if server.Fulfilled? then server.value.totalRevenue else 0.0;
    var pending := if server.Fulfilled? then server.value.pendingOrders else 0;
    (Stats(productCount, categoryCount, revenue, pending), t1 + t2)
  }

  /** `fetchStats` once all three requests have settled: the loading ends. */
  function Settle(products: Settled<ProductsSummary>,
                  categories: Settled<seq<CategoryEditor.FlatCategory>>,
                  server: Settled<ServerStats>): (r: (State, seq<Toast>))
    ensures !r.0.isLoading
    ensures (r.0.stats, r.1) == Merge(products, categories, server)
  {
    var m := Merge(products, categories, server);
    (State(m.0, false), m.1)
  }

  /** Each figure depends only on its own request: changing the outcome of
      the other two leaves it as it was. */
  lemma FiguresIndependent(p1: Settled<ProductsSummary>, p2: Settled<ProductsSummary>,
                           c1: Settled<seq<CategoryEditor.FlatCategory>>, c2: Settled<seq<CategoryEditor.FlatCategory>>,
                           s1: Settled<ServerStats>, s2: Settled<ServerStats>)
    ensures Merge(p1, c1, s1).0.productCount == Merge(p1, c2, s2).0.productCount
    ensures Merge(p1, c1, s1).0.categoryCount == Merge(p2, c1, s2).0.categoryCount
    ensures Merge(p1, c1, s1).0.totalRevenue == Merge(p2, c2, s1).0.totalRevenue
    ensures Merge(p1, c1, s1).0.pendingOrders == Merge(p2, c2, s1).0.pendingOrders
  {
  }

  /** One toast per failed count request, and none otherwise. */
  lemma ToastsCountFailures(p: Settled<ProductsSummary>, c: Settled<seq<CategoryEditor.FlatCategory>>, s: Settled<ServerStats>)
    ensures |Merge(p, c, s).1| == (if p.Rejected? then 1 else 0) + (if c.Rejected? then 1 else 0)
    ensures Merge(p, c, s).1 == [] <==> p.Fulfilled? && c.Fulfilled?
  {
  }

  /** When everything fails the page shows zeros, not the loading spinner. */
  lemma AllFailedShowsZeros()
    ensures Settle(Rejected, Rejected, Rejected).0 == State(Zero, false)
  {
  }
}
