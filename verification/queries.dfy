/**
 The read side of the sale collection (`SaleService.GetRecentSalesAsync`,
 `GetTodayRevenueAsync`, `GetByIdAsync`, `GetByReceiptNoAsync`). The
 collection is the sequence of sales in insertion order, which is also the
 order an unsorted find returns them in.
 */
module SaleQueries {
  import opened Clock
  import opened Money
  import opened Results
  import opened Catalog
  import opened SaleCheckout

  // ---------------------------------------------------------------------
  // Recent sales

  /** Sorted by `CreatedAt`, newest first. */
  predicate NewestFirst(s: seq<Sale>) {
    forall i, j | 0 <= i < j < |s| :: Ordinal(s[j].createdAt) <= Ordinal(s[i].createdAt)
  }

  /** Puts `x` after every sale at least as new as it, so sales with the same
      time keep the order they were inserted in. */
  function InsertByTime(sorted: seq<Sale>, x: Sale): (r: seq<Sale>)
    ensures |r| == |sorted| + 1
    ensures r[0] == x || (sorted != [] && r[0] == sorted[0])
  {
    if sorted == [] then [x]
    else if Ordinal(x.createdAt) <= Ordinal(sorted[0].createdAt) then [sorted[0]] + InsertByTime(sorted[1..], x)
    else [x] + sorted
  }

  /** The tail of a newest-first sequence is newest first. */
  lemma TailNewestFirst(s: seq<Sale>)
    requires NewestFirst(s) && s != []
    ensures NewestFirst(s[1..])
  {
    var tail := s[1..];
    forall i, j | 0 <= i < j < |tail| ensures Ordinal(tail[j].createdAt) <= Ordinal(tail[i].createdAt) {
      assert tail[i] == s[i + 1] && tail[j] == s[j + 1];
    }
  }

  /** A sale no newer than the head of a newest-first sequence can precede
      it. */
  lemma ConsNewestFirst(head: Sale, rest: seq<Sale>)
    requires NewestFirst(rest)
    requires rest != [] ==> Ordinal(rest[0].createdAt) <= Ordinal(head.createdAt)
    ensures NewestFirst([head] + rest)
  {
    var r := [head] + rest;
    forall i, j | 0 <= i < j < |r| ensures Ordinal(r[j].createdAt) <= Ordinal(r[i].createdAt) {
      assert r[j] == rest[j - 1];
      if i == 0 {
        if j > 1 { assert Ordinal(rest[j - 1].createdAt) <= Ordinal(rest[0].createdAt); }
      } else {
        assert r[i] == rest[i - 1];
      }
    }
  }

  /** Inserting into a newest-first sequence keeps it newest first. */
  lemma {:induction false} InsertKeepsOrder(sorted: seq<Sale>, x: Sale)
    requires NewestFirst(sorted)
    ensures NewestFirst(InsertByTime(sorted, x))
  {
    if sorted == [] {
      assert InsertByTime(sorted, x) == [x];
    } else if Ordinal(x.createdAt) <= Ordinal(sorted[0].createdAt) {
      TailNewestFirst(sorted);
      var rest := InsertByTime(sorted[1..], x);
      InsertKeepsOrder(sorted[1..], x);
      assert Ordinal(rest[0].createdAt) <= Ordinal(sorted[0].createdAt) by {
        if rest[0] != x { assert rest[0] == sorted[1]; }
      }
      ConsNewestFirst(sorted[0], rest);
    } else {
      ConsNewestFirst(x, sorted);
    }
  }

  /** Inserting adds `x` and loses nothing. */
  lemma {:induction false} InsertIsPermutation(sorted: seq<Sale>, x: Sale)
    ensures multiset(InsertByTime(sorted, x)) == multiset(sorted) + multiset{x}
  {
    if sorted != [] && Ordinal(x.createdAt) <= Ordinal(sorted[0].createdAt) {
      InsertIsPermutation(sorted[1..], x);
      assert sorted == [sorted[0]] + sorted[1..];
    }
  }

  /** `SortByDescending(s => s.CreatedAt)`: a newest-first permutation of the
      collection. */
  function SortNewestFirst(sales: seq<Sale>): (r: seq<Sale>)
    ensures NewestFirst(r)
    ensures multiset(r) == multiset(sales)
    ensures |r| == |sales|
  {
    if sales == [] then []
    else
      var init := sales[..|sales| - 1];
      var last := sales[|sales| - 1];
      assert sales == init + [last];
      InsertKeepsOrder(SortNewestFirst(init), last);
      InsertIsPermutation(SortNewestFirst(init), last);
      InsertByTime(SortNewestFirst(init), last)
  }

  /** The driver's `Limit(n)`: 0 means no limit and a negative limit returns
      the same number of documents as its absolute value. */
  function EffectiveLimit(limit: int): (r: Option<nat>)
    ensures r.None? <==> limit == 0
    ensures r.Some? ==> r.value > 0 && (r.value == limit || r.value == -limit)
  {
    if limit == 0 then None else Some(Abs(limit))
  }

  /** How many sales a limit lets through out of `size`. */
  function TakeCount(size: nat, limit: int): (n: nat)
    ensures n <= size
    ensures limit == 0 ==> n == size
    ensures limit != 0 ==> n == if size < Abs(limit) then size else Abs(limit)
  {
    match EffectiveLimit(limit)
    case None => size
    case Some(k) => if k < size then k else size
  }

  /** `GetRecentSalesAsync(limit)`: the newest sales first, at most the
      limit of them, all from the collection. */
  function RecentSales(sales: seq<Sale>, limit: int): (r: seq<Sale>)
    ensures NewestFirst(r)
    ensures multiset(r) <= multiset(sales)
    ensures limit == 0 ==> multiset(r) == multiset(sales)
    ensures limit != 0 ==> |r| == if |sales| < Abs(limit) then |sales| else Abs(limit)
  {
    var sorted := SortNewestFirst(sales);
    var n := TakeCount(|sales|, limit);
    assert sorted == sorted[..n] + sorted[n..];
    assert multiset(sorted) == multiset(sorted[..n]) + multiset(sorted[n..]);
    sorted[..n]
  }

  lemma SplitCount(a: seq<Sale>, n: nat, s: Sale)
    requires n <= |a| && multiset(a[..n])[s] < multiset(a)[s]
    ensures s in a[n..]
  {
    assert a == a[..n] + a[n..];
    assert multiset(a)[s] == multiset(a[..n])[s] + multiset(a[n..])[s];
  }

  lemma SuffixIsNoNewer(sorted: seq<Sale>, n: nat, s: Sale)
    requires NewestFirst(sorted) && n <= |sorted| && s in sorted[n..]
    ensures forall i | 0 <= i < n :: Ordinal(s.createdAt) <= Ordinal(sorted[i].createdAt)
  {
    var j :| n <= j < |sorted| && sorted[j] == s;
  }

  /** A sale the limit cuts off is no newer than any sale returned. */
  lemma RecentSalesAreTheNewest(sales: seq<Sale>, limit: int, s: Sale)
    requires multiset(RecentSales(sales, limit))[s] < multiset(sales)[s]
    ensures forall i | 0 <= i < |RecentSales(sales, limit)| ::
              Ordinal(s.createdAt) <= Ordinal(RecentSales(sales, limit)[i].createdAt)
  {
    var sorted := SortNewestFirst(sales);
    var n := TakeCount(|sales|, limit);
    var r := RecentSales(sales, limit);
    assert r == sorted[..n];
    assert multiset(r)[s] < multiset(sorted)[s];
    SplitCount(sorted, n, s);
    SuffixIsNoNewer(sorted, n, s);
  }

  /** The newest sale of a non-empty collection comes first. */
  lemma RecentSalesStartWithNewest(sales: seq<Sale>, limit: int)
    requires sales != []
    ensures RecentSales(sales, limit) != []
    ensures forall i | 0 <= i < |sales| ::
              Ordinal(sales[i].createdAt) <= Ordinal(RecentSales(sales, limit)[0].createdAt)
  {
    var sorted := SortNewestFirst(sales);
    var r := RecentSales(sales, limit);
    forall i | 0 <= i < |sales| ensures Ordinal(sales[i].createdAt) <= Ordinal(r[0].createdAt) {
      assert sales[i] in multiset(sorted);
      var j :| 0 <= j < |sorted| && sorted[j] == sales[i];
      assert r[0] == sorted[0];
    }
  }

  // ---------------------------------------------------------------------
  // Today's revenue

  /** `start <= CreatedAt < start.AddDays(1)` with `start = now.Date`. */
  predicate InToday(now: Instant, t: Instant) {
    Ordinal(StartOfDay(now)) <= Ordinal(t) < Ordinal(StartOfDay(now)) + SecondsPerDay
  }

  /** `GetTodayRevenueAsync`: the sum of the grand totals of the sales made
      on `now`'s calendar day. */
  function TodayRevenue(sales: seq<Sale>, now: Instant): (total: Cents)
    ensures (forall i | 0 <= i < |sales| :: sales[i].grandTotal >= 0) ==> total >= 0
  {
    if sales == [] then 0
    else
      assert forall i | 1 <= i < |sales| :: sales[1..][i - 1] == sales[i];
      (if InToday(now, sales[0].createdAt) then sales[0].grandTotal else 0) + TodayRevenue(sales[1..], now)
  }

  /** Recording one more sale adds its grand total to the day's revenue
      exactly when it falls on that calendar day. */
  lemma {:induction false} RevenueAppend(sales: seq<Sale>, s: Sale, now: Instant)
    ensures TodayRevenue(sales + [s], now)
            == TodayRevenue(sales, now) + (if SameDate(s.createdAt, now) then s.grandTotal else 0)
  {
    TodayWindowIsSameDate(now, s.createdAt);
    if sales != [] {
      assert (sales + [s])[1..] == sales[1..] + [s];
      RevenueAppend(sales[1..], s, now);
    }
  }

  /** A successful checkout adds its grand total to the revenue of the day
      it happens on, and a failed one adds nothing: the revenue of the day
      never goes down. */
  lemma CheckoutAddsToRevenue(store: Store, sales: seq<Sale>, req: SaleRequest,
                              now: Instant, draw: nat, saleId: SaleId)
    ensures var o := Checkout(store, sales, req, now, draw, saleId);
            && TodayRevenue(o.sales, now)
               == TodayRevenue(sales, now) + (if o.result.Ok? then o.result.value.grandTotal else 0)
            && TodayRevenue(sales, now) <= TodayRevenue(o.sales, now)
  {
    var o := Checkout(store, sales, req, now, draw, saleId);
    if o.result.Ok? {
      RevenueAppend(sales, o.result.value, now);
      var sale := o.result.value;
      assert o == CheckoutAgainst(store, store, sales, req, now, draw, saleId);
      assert sale.createdAt == now;
      assert sale.grandTotal == ComputeTotals(sale.items, req.discount, req.taxRate).grandTotal;
    }
  }

  // ---------------------------------------------------------------------
  // Lookups

  /** `Find(filter).FirstOrDefault()` without a sort: the first sale, in
      insertion order, that the filter accepts. */
  function FirstMatch(sales: seq<Sale>, accept: Sale -> bool): (r: Option<Sale>)
    ensures r.None? <==> forall i | 0 <= i < |sales| :: !accept(sales[i])
    ensures r.Some? ==>
              exists i | 0 <= i < |sales| ::
                sales[i] == r.value && accept(sales[i]) && forall j | 0 <= j < i :: !accept(sales[j])
  {
    if sales == [] then None
    else if accept(sales[0]) then Some(sales[0])
    else
      var r := FirstMatch(sales[1..], accept);
      assert forall i | 1 <= i < |sales| :: sales[1..][i - 1] == sales[i];
      if r.Some? then
        var i :| 0 <= i < |sales[1..]| && sales[1..][i] == r.value && accept(sales[1..][i])
                 && forall j | 0 <= j < i :: !accept(sales[1..][j]);
        assert sales[i + 1] == r.value;
        r
      else r
  }

  /** `GetByIdAsync`. */
  function GetById(sales: seq<Sale>, id: SaleId): Option<Sale> {
    FirstMatch(sales, (s: Sale) => s.id == id)
  }

  /** `GetByReceiptNoAsync`. */
  function GetByReceiptNo(sales: seq<Sale>, receiptNo: string): Option<Sale> {
    FirstMatch(sales, (s: Sale) => s.receiptNo == receiptNo)
  }

  /** A sale appended behind sales the filter rejects is the first match. */
  lemma FirstMatchAppended(sales: seq<Sale>, x: Sale, accept: Sale -> bool)
    requires forall i | 0 <= i < |sales| :: !accept(sales[i])
    requires accept(x)
    ensures FirstMatch(sales + [x], accept) == Some(x)
  {
    var all := sales + [x];
    assert accept(all[|sales|]);
    var r := FirstMatch(all, accept);
    var i :| 0 <= i < |all| && all[i] == r.value && accept(all[i])
             && forall j | 0 <= j < i :: !accept(all[j]);
  }

  /** The receipt of a successful checkout finds that very sale, unless an
      earlier sale already carries the same receipt number (two checkouts in
      the same second that drew the same suffix). */
  lemma CheckoutReceiptIsFound(store: Store, sales: seq<Sale>, req: SaleRequest,
                               now: Instant, draw: nat, saleId: SaleId)
    requires Checkout(store, sales, req, now, draw, saleId).result.Ok?
    requires forall i | 0 <= i < |sales| ::
               sales[i].receiptNo != Checkout(store, sales, req, now, draw, saleId).result.value.receiptNo
    ensures var o := Checkout(store, sales, req, now, draw, saleId);
            GetByReceiptNo(o.sales, o.result.value.receiptNo) == Some(o.result.value)
  {
    var o := Checkout(store, sales, req, now, draw, saleId);
    var sale := o.result.value;
    FirstMatchAppended(sales, sale, (s: Sale) => s.receiptNo == sale.receiptNo);
  }
}
