/**
 The checkout transaction (`SaleService.CreateSaleAsync`): resolve each cart
 line against the active products, compute the totals, decrement the stock
 line by line, and record the sale.

 The product collection is a `Store`; the sale collection is the sequence of
 sales in insertion order. The clock reading, the random draw behind the
 receipt suffix and the identifier the database gives the new sale are
 parameters.
 */
module SaleCheckout {
  import opened Text
  import opened Money
  import opened Clock
  import opened Results
  import opened Catalog
  import opened Receipt

  /** One requested cart line. */
  datatype LineRequest = LineRequest(barcode: string, qty: int)

  /** The checkout request body. */
  datatype SaleRequest = SaleRequest(
    cashierName: string,
    paymentMethod: string,
    discount: Cents,
    taxRate: Rate,
    items: seq<LineRequest>)

  /** A request that sets only its items gets the declared defaults: cashier
      "Cashier", payment "CASH", no discount, a tax rate of 0.05. */
  function DefaultRequest(items: seq<LineRequest>): SaleRequest {
    SaleRequest("Cashier", "CASH", 0, DefaultTaxRate, items)
  }

  /** A sold line: a snapshot of the product at checkout time. */
  datatype SaleItem = SaleItem(
    productId: ProductId,
    barcode: string,
    name: string,
    unitPrice: Cents,
    qty: int,
    lineTotal: Cents)

  type SaleId = nat

  datatype Sale = Sale(
    id: SaleId,
    receiptNo: string,
    cashierName: string,
    paymentMethod: string,
    items: seq<SaleItem>,
    subTotal: Cents,
    taxRate: Rate,
    taxAmount: Cents,
    discount: Cents,
    grandTotal: Cents,
    createdAt: Instant)

  /** The exceptions a checkout raises. */
  datatype CheckoutError =
    | CartEmpty
    | BarcodeRequired
    | QtyNotPositive
    | ProductNotFound(barcode: string)
    | NotEnoughStock(name: string, available: int)
    | StockUpdateFailed

  /** The exception message, which the endpoint returns as the body of its
      400 answer. */
  function ErrorMessage(e: CheckoutError): (m: string)
    ensures m != ""
    ensures e.ProductNotFound? ==> |e.barcode| <= |m| && m[|m| - |e.barcode|..] == e.barcode
  {
    match e
    case CartEmpty => "Cart is empty."
    case BarcodeRequired => "Barcode is required."
    case QtyNotPositive => "Quantity must be > 0."
    case ProductNotFound(b) => "Product not found for barcode: " + b
    case NotEnoughStock(n, a) => "Not enough stock for " + n + ". Available: " + IntToString(a)
    case StockUpdateFailed => "Stock update failed."
  }

  // ---------------------------------------------------------------------
  // Phase 1: resolve the lines

  /** The errors a single line can raise. */
  predicate IsLineError(e: CheckoutError) {
    e.BarcodeRequired? || e.QtyNotPositive? || e.ProductNotFound? || e.NotEnoughStock?
  }

  /** One line of the request: a non-blank barcode, a positive quantity, an
      active product with exactly that barcode (the first one the lookup
      finds), and enough stock for this line alone. */
  function ResolveLine(store: Store, line: LineRequest): (r: Result<SaleItem, CheckoutError>)
    ensures r.Err? ==> IsLineError(r.error)
    ensures r == Err(BarcodeRequired) <==> IsBlank(line.barcode)
    ensures r == Err(QtyNotPositive) <==> !IsBlank(line.barcode) && line.qty <= 0
    ensures r == Err(ProductNotFound(line.barcode))
            <==> && !IsBlank(line.barcode) && line.qty > 0
                 && forall k | k in store :: !(store[k].barcode == line.barcode && store[k].isActive)
    ensures r.Err? && r.error.NotEnoughStock? ==>
              && !IsBlank(line.barcode) && line.qty > 0
              && FindActiveByBarcode(store, line.barcode).Some?
              && var p := store[FindActiveByBarcode(store, line.barcode).value];
                 p.stock < line.qty && r.error == NotEnoughStock(p.name, p.stock)
    ensures r.Err? && r.error.ProductNotFound? ==> r.error.barcode == line.barcode
    ensures r.Ok? <==>
              && !IsBlank(line.barcode) && line.qty > 0
              && FindActiveByBarcode(store, line.barcode).Some?
              && store[FindActiveByBarcode(store, line.barcode).value].stock >= line.qty
    ensures r.Ok? ==> FindActiveByBarcode(store, line.barcode) == Some(r.value.productId)
    ensures r.Ok? ==>
              var item := r.value;
              && item.productId in store
              && var p := store[item.productId];
                 && p.isActive && p.barcode == line.barcode
                 && item.barcode == p.barcode && item.name == p.name && item.unitPrice == p.price
                 && item.qty == line.qty > 0 && p.stock >= item.qty
                 && item.lineTotal == item.unitPrice * item.qty
  {
    if IsBlank(line.barcode) then Err(BarcodeRequired)
    else if line.qty <= 0 then Err(QtyNotPositive)
    else match FindActiveByBarcode(store, line.barcode)
      case None => Err(ProductNotFound(line.barcode))
      case Some(id) =>
        var p := store[id];
        if p.stock < line.qty then Err(NotEnoughStock(p.name, p.stock))
        else Ok(SaleItem(id, p.barcode, p.name, p.price, line.qty, p.price * line.qty))
  }

  /** The lines in request order: every line resolved, or the error of the
      first line that fails. Every line is checked against the same
      collection, so two lines for one product are each checked against its
      full stock. */
  function ResolveLines(store: Store, lines: seq<LineRequest>): (r: Result<seq<SaleItem>, CheckoutError>)
    ensures r.Err? ==> IsLineError(r.error)
    ensures r.Ok? ==> |r.value| == |lines|
    ensures r.Ok? ==> forall i | 0 <= i < |lines| :: ResolveLine(store, lines[i]) == Ok(r.value[i])
    decreases |lines|
  {
    if lines == [] then Ok([])
    else
      match ResolveLine(store, lines[0])
      case Err(e) => Err(e)
      case Ok(item) =>
        match ResolveLines(store, lines[1..])
        case Err(e) => Err(e)
        case Ok(rest) =>
          assert forall i | 1 <= i < |lines| :: lines[i] == lines[1..][i - 1];
          Ok([item] + rest)
  }

  /** Resolution fails exactly when some line fails, and then with the error
      of the first failing line. */
  lemma {:induction false} ResolveLinesFirstError(store: Store, lines: seq<LineRequest>)
    ensures ResolveLines(store, lines).Ok? <==> forall i | 0 <= i < |lines| :: ResolveLine(store, lines[i]).Ok?
    ensures ResolveLines(store, lines).Err? ==>
              exists i | 0 <= i < |lines| ::
                && ResolveLine(store, lines[i]) == Err(ResolveLines(store, lines).error)
                && forall j | 0 <= j < i :: ResolveLine(store, lines[j]).Ok?
    decreases |lines|
  {
    if lines != [] && ResolveLine(store, lines[0]).Ok? {
      var tail := lines[1..];
      ResolveLinesFirstError(store, tail);
      assert forall i | 1 <= i < |lines| :: lines[i] == tail[i - 1];
      if ResolveLines(store, tail).Err? {
        var i :| 0 <= i < |tail| && ResolveLine(store, tail[i]) == Err(ResolveLines(store, tail).error)
                 && forall j | 0 <= j < i :: ResolveLine(store, tail[j]).Ok?;
        assert ResolveLine(store, lines[i + 1]) == Err(ResolveLines(store, lines).error);
        assert forall j | 0 <= j < i + 1 :: ResolveLine(store, lines[j]).Ok?;
      }
    }
  }

  /** A non-empty list whose first line and remaining lines all resolve
      puts the first line's item in front of the others. */
  lemma ResolveLinesCons(store: Store, line: LineRequest, rest: seq<LineRequest>)
    requires ResolveLine(store, line).Ok? && ResolveLines(store, rest).Ok?
    ensures ResolveLines(store, [line] + rest)
            == Ok([ResolveLine(store, line).value] + ResolveLines(store, rest).value)
  {
    assert ([line] + rest)[0] == line;
    assert ([line] + rest)[1..] == rest;
  }

  /** A single line that resolves gives a single item. */
  lemma ResolveOneLine(store: Store, line: LineRequest)
    requires ResolveLine(store, line).Ok?
    ensures ResolveLines(store, [line]) == Ok([ResolveLine(store, line).value])
  {
    assert [line][1..] == [];
    assert [line][0] == line;
    assert ResolveLines(store, []) == Ok([]);
    var item := ResolveLine(store, line).value;
    assert ResolveLine(store, [line][0]) == Ok(item);
    assert ResolveLines(store, [line][1..]) == Ok([]);
    assert [item] + [] == [item];
    assert ResolveLines(store, [line]) == Ok([item] + []);
  }

  // ---------------------------------------------------------------------
  // Phase 2: totals

  function SumLineTotals(items: seq<SaleItem>): Cents {
    if items == [] then 0 else items[0].lineTotal + SumLineTotals(items[1..])
  }

  /** `discount < 0 ? 0 : discount`, then lowered to the subtotal if above
      it: the amount off is never more than the subtotal, and never negative
      when the subtotal is not. */
  function ClampDiscount(discount: Cents, subTotal: Cents): (d: Cents)
    ensures d <= subTotal
    ensures subTotal >= 0 ==> 0 <= d
    ensures 0 <= discount <= subTotal ==> d == discount
    ensures discount > subTotal ==> d == subTotal
    ensures discount < 0 && subTotal >= 0 ==> d == 0
  {
    var d := if discount < 0 then 0 else discount;
    if d > subTotal then subTotal else d
  }

  datatype Totals = Totals(subTotal: Cents, discount: Cents, taxRate: Rate, taxAmount: Cents, grandTotal: Cents)

  /** The money of a sale: the amount taxed is the subtotal less the clamped
      discount and is never negative; the tax is that amount times the
      clamped rate, rounded half to even to the cent; the grand total is the
      amount taxed plus the tax, so it is never negative either. */
  function ComputeTotals(items: seq<SaleItem>, discount: Cents, taxRate: Rate): (t: Totals)
    ensures t.subTotal == SumLineTotals(items)
    ensures t.discount <= t.subTotal
    ensures t.subTotal >= 0 ==> 0 <= t.discount
    ensures 0 <= discount <= t.subTotal ==> t.discount == discount
    ensures t.discount == ClampDiscount(discount, t.subTotal)
    ensures t.taxRate == ClampRate(taxRate)
    ensures t.taxRate.units >= 0
    ensures taxRate.units >= 0 ==> t.taxRate == taxRate
    ensures IsHalfEvenRounding((t.subTotal - t.discount) * t.taxRate.units, Pow10(t.taxRate.scale), t.taxAmount)
    ensures t.taxAmount >= 0
    ensures t.grandTotal == t.subTotal - t.discount + t.taxAmount
    ensures t.grandTotal >= 0
  {
    var subTotal := SumLineTotals(items);
    var d := ClampDiscount(discount, subTotal);
    var rate := ClampRate(taxRate);
    var tax := TaxAmount(subTotal - d, rate);
    Totals(subTotal, d, rate, tax, subTotal - d + tax)
  }

  // ---------------------------------------------------------------------
  // Phase 3: decrement the stock

  /** The quantity the lines take from product `id`, summed over every line
      that names it. */
  function QtyFor(items: seq<SaleItem>, id: ProductId): int {
    if items == [] then 0
    else (if items[0].productId == id then items[0].qty else 0) + QtyFor(items[1..], id)
  }

  /** The store after the decrements, and the index of the line whose
      update matched no document, if any. */
  datatype Deduction = Deduction(store: Store, failedAt: Option<nat>)

  /** One `$inc` of the stock by `-qty` with `updatedAt` set to `now`. */
  function Decrement(p: Product, qty: int, now: Instant): (q: Product)
    ensures q.stock == p.stock - qty && q.updatedAt == now
    ensures q.(stock := p.stock, updatedAt := p.updatedAt) == p
  {
    p.(stock := p.stock - qty, updatedAt := now)
  }

  /** The decrements, one update per line in order. An update whose product
      is gone matches nothing and stops the loop; the updates before it stay
      applied. No product is added or removed. */
  function Deduct(store: Store, items: seq<SaleItem>, now: Instant): (o: Deduction)
    ensures o.store.Keys == store.Keys
    ensures o.failedAt.Some? ==> o.failedAt.value < |items|
    decreases |items|
  {
    if items == [] then Deduction(store, None)
    else
      var id := items[0].productId;
      if id !in store then Deduction(store, Some(0))
      else
        var next := Deduct(store[id := Decrement(store[id], items[0].qty, now)], items[1..], now);
        Deduction(next.store, if next.failedAt.Some? then Some(next.failedAt.value + 1) else None)
  }

  /** The decrements all land exactly when every line's product is still in
      the collection; otherwise they stop at the first line whose product is
      gone. */
  lemma {:induction false} DeductFailsAtFirstMissing(store: Store, items: seq<SaleItem>, now: Instant)
    ensures var o := Deduct(store, items, now);
      && (o.failedAt.None? <==> forall i | 0 <= i < |items| :: items[i].productId in store)
      && (o.failedAt.Some? ==>
            && items[o.failedAt.value].productId !in store
            && forall j | 0 <= j < o.failedAt.value :: items[j].productId in store)
    decreases |items|
  {
    if items != [] && items[0].productId in store {
      var id := items[0].productId;
      DeductFailsAtFirstMissing(store[id := Decrement(store[id], items[0].qty, now)], items[1..], now);
      assert forall i | 1 <= i < |items| :: items[i] == items[1..][i - 1];
    }
  }

  /** When every decrement lands, each product's stock goes down by the sum
      of the quantities of the lines naming it, however many there are. */
  lemma {:induction false} DeductStock(store: Store, items: seq<SaleItem>, now: Instant, k: ProductId)
    requires k in store && Deduct(store, items, now).failedAt.None?
    ensures Deduct(store, items, now).store[k].stock == store[k].stock - QtyFor(items, k)
    decreases |items|
  {
    if items != [] {
      var id := items[0].productId;
      DeductStock(store[id := Decrement(store[id], items[0].qty, now)], items[1..], now, k);
    }
  }

  /** The decrements touch only the stock and the modification time, and
      leave a product that no line names exactly as it was. */
  lemma {:induction false} DeductTouchesOnlyStock(store: Store, items: seq<SaleItem>, now: Instant, k: ProductId)
    requires k in store
    ensures var p := Deduct(store, items, now).store[k];
            p == store[k].(stock := p.stock, updatedAt := p.updatedAt)
    ensures (forall i | 0 <= i < |items| :: items[i].productId != k) ==>
              Deduct(store, items, now).store[k] == store[k]
    decreases |items|
  {
    if items != [] && items[0].productId in store {
      var id := items[0].productId;
      DeductTouchesOnlyStock(store[id := Decrement(store[id], items[0].qty, now)], items[1..], now, k);
      assert forall i | 1 <= i < |items| :: items[i] == items[1..][i - 1];
    }
  }

  /** A failed decrement leaves exactly the decrements of the lines before
      it applied: nothing is rolled back. */
  lemma {:induction false} DeductFailureKeepsPrefix(store: Store, items: seq<SaleItem>, now: Instant)
    requires Deduct(store, items, now).failedAt.Some?
    ensures var i := Deduct(store, items, now).failedAt.value;
            && Deduct(store, items, now).store == Deduct(store, items[..i], now).store
            && Deduct(store, items[..i], now).failedAt.None?
    decreases |items|
  {
    var id := items[0].productId;
    if id in store {
      var s' := store[id := Decrement(store[id], items[0].qty, now)];
      DeductFailureKeepsPrefix(s', items[1..], now);
      var i := Deduct(store, items, now).failedAt.value;
      assert items[..i][1..] == items[1..][..i - 1];
    }
  }

  // ---------------------------------------------------------------------
  // Phase 4: the sale record

  /** `IsNullOrWhiteSpace(name) ? "Cashier" : name.Trim()`. */
  function CashierName(name: string): (r: string)
    ensures !IsBlank(r) && Trim(r) == r
    ensures IsBlank(name) ==> r == "Cashier"
    ensures !IsBlank(name) ==> r == Trim(name)
  {
    TrimKeepsBlankness(name);
    TrimIdempotent(name);
    assert !IsWhiteSpace("Cashier"[0]);
    TrimOfTrimmed("Cashier");
    if IsBlank(name) then "Cashier" else Trim(name)
  }

  /** `IsNullOrWhiteSpace(requested) ? "CASH" : requested.Trim().ToUpper()`. */
  function PaymentMethod(requested: string): (r: string)
    ensures !IsBlank(r)
    ensures forall i | 0 <= i < |r| :: !IsLowerAscii(r[i])
    ensures IsBlank(requested) ==> r == "CASH"
    ensures !IsBlank(requested) ==> EqualsIgnoreCase(r, Trim(requested))
  {
    if IsBlank(requested) then
      assert !IsWhiteSpace("CASH"[0]);
      "CASH"
    else
      var t := Trim(requested);
      TrimKeepsBlankness(requested);
      ToUpperKeepsCaseClass(t);
      var k :| 0 <= k < |t| && !IsWhiteSpace(t[k]);
      UpperKeepsNonWhiteSpace(t[k]);
      assert ToUpper(t)[k] == UpperChar(t[k]);
      ToUpper(t)
  }

  lemma UpperKeepsNonWhiteSpace(c: char)
    ensures !IsWhiteSpace(c) ==> !IsWhiteSpace(UpperChar(c))
  {
  }

  /** The outcome of a checkout: both collections afterwards, and the sale
      or the error. */
  datatype CheckoutOutcome = CheckoutOutcome(
    store: Store,
    sales: seq<Sale>,
    result: Result<Sale, CheckoutError>)

  /** `CreateSaleAsync` when the product collection the lines are looked up
      in, `seen`, may differ from the one the decrements reach, `current`
      (another request removed a product in between). A validation failure
      writes nothing; a failed decrement records no sale; a success appends
      exactly one sale, built from the resolved lines and their totals. */
  function CheckoutAgainst(seen: Store, current: Store, sales: seq<Sale>, req: SaleRequest,
                           now: Instant, draw: nat, saleId: SaleId): (o: CheckoutOutcome)
    ensures req.items == [] ==> o == CheckoutOutcome(current, sales, Err(CartEmpty))
    ensures req.items != [] && ResolveLines(seen, req.items).Err? ==>
              o == CheckoutOutcome(current, sales, Err(ResolveLines(seen, req.items).error))
    ensures o.result.Err? ==> o.sales == sales
    ensures o.store.Keys == current.Keys
    ensures req.items != [] && ResolveLines(seen, req.items).Ok? ==>
              && (o.result.Ok? <==> Deduct(current, ResolveLines(seen, req.items).value, now).failedAt.None?)
              && (o.result.Err? ==> o.result == Err(StockUpdateFailed))
    ensures o.result == Err(StockUpdateFailed) ==>
              && req.items != [] && ResolveLines(seen, req.items).Ok?
              && o.store == Deduct(current, ResolveLines(seen, req.items).value, now).store
              && Deduct(current, ResolveLines(seen, req.items).value, now).failedAt.Some?
    ensures o.result.Ok? ==>
              && req.items != []
              && ResolveLines(seen, req.items) == Ok(o.result.value.items)
              && o.sales == sales + [o.result.value]
              && o.store == Deduct(current, o.result.value.items, now).store
              && Deduct(current, o.result.value.items, now).failedAt.None?
    ensures o.result.Ok? ==>
              var sale := o.result.value;
              var t := ComputeTotals(sale.items, req.discount, req.taxRate);
              && sale.subTotal == t.subTotal && sale.discount == t.discount
              && sale.taxRate == t.taxRate && sale.taxAmount == t.taxAmount
              && sale.grandTotal == t.grandTotal
              && sale.cashierName == CashierName(req.cashierName)
              && sale.paymentMethod == PaymentMethod(req.paymentMethod)
              && IsReceiptNo(sale.receiptNo) && ParseReceipt(sale.receiptNo).value.time == now
              && sale.id == saleId && sale.createdAt == now
  {
    if req.items == [] then CheckoutOutcome(current, sales, Err(CartEmpty))
    else
      match ResolveLines(seen, req.items)
      case Err(e) => CheckoutOutcome(current, sales, Err(e))
      case Ok(items) =>
        var t := ComputeTotals(items, req.discount, req.taxRate);
        var d := Deduct(current, items, now);
        if d.failedAt.Some? then CheckoutOutcome(d.store, sales, Err(StockUpdateFailed))
        else
          var sale := Sale(saleId, NewReceiptNo(now, draw), CashierName(req.cashierName),
                           PaymentMethod(req.paymentMethod), items, t.subTotal, t.taxRate,
                           t.taxAmount, t.discount, t.grandTotal, now);
          CheckoutOutcome(d.store, sales + [sale], Ok(sale))
  }

  /** A successful checkout takes from each product the summed quantity of
      its lines, changes nothing but the stock and modification time, and
      leaves products it does not sell untouched; its grand total is never
      negative. */
  lemma CheckoutSuccess(seen: Store, current: Store, sales: seq<Sale>, req: SaleRequest,
                        now: Instant, draw: nat, saleId: SaleId, k: ProductId)
    requires k in current
    requires CheckoutAgainst(seen, current, sales, req, now, draw, saleId).result.Ok?
    ensures var o := CheckoutAgainst(seen, current, sales, req, now, draw, saleId);
            var sale := o.result.value;
            && o.store[k].stock == current[k].stock - QtyFor(sale.items, k)
            && o.store[k] == current[k].(stock := o.store[k].stock, updatedAt := o.store[k].updatedAt)
            && ((forall i | 0 <= i < |sale.items| :: sale.items[i].productId != k) ==> o.store[k] == current[k])
            && sale.grandTotal >= 0
  {
    var sale := CheckoutAgainst(seen, current, sales, req, now, draw, saleId).result.value;
    DeductStock(current, sale.items, now, k);
    DeductTouchesOnlyStock(current, sale.items, now, k);
  }

  /** A recorded sale holds exactly the lines the request resolved to, and
      its subtotal is their sum. */
  lemma CheckoutRecordsResolvedLines(store: Store, sales: seq<Sale>, req: SaleRequest,
                                     now: Instant, draw: nat, saleId: SaleId)
    requires Checkout(store, sales, req, now, draw, saleId).result.Ok?
    ensures var sale := Checkout(store, sales, req, now, draw, saleId).result.value;
            && ResolveLines(store, req.items) == Ok(sale.items)
            && sale.subTotal == SumLineTotals(sale.items)
  {
    assert Checkout(store, sales, req, now, draw, saleId) == CheckoutAgainst(store, store, sales, req, now, draw, saleId);
  }

  /** A checkout whose decrement for line `i` matches no document records no
      sale and keeps the decrements of lines `0..i-1`: the product of line
      `i` is the first one missing from the collection. */
  lemma CheckoutStockFailure(seen: Store, current: Store, sales: seq<Sale>, req: SaleRequest,
                             now: Instant, draw: nat, saleId: SaleId)
    requires CheckoutAgainst(seen, current, sales, req, now, draw, saleId).result == Err(StockUpdateFailed)
    ensures var o := CheckoutAgainst(seen, current, sales, req, now, draw, saleId);
            var items := ResolveLines(seen, req.items).value;
            var i := Deduct(current, items, now).failedAt.value;
            && o.sales == sales
            && i < |items| && items[i].productId !in current
            && (forall j | 0 <= j < i :: items[j].productId in current)
            && o.store == Deduct(current, items[..i], now).store
            && Deduct(current, items[..i], now).failedAt.None?
  {
    var items := ResolveLines(seen, req.items).value;
    DeductFailsAtFirstMissing(current, items, now);
    DeductFailureKeepsPrefix(current, items, now);
  }

  /** `CreateSaleAsync` with nothing happening between its lookups and its
      decrements. It never fails at the decrements, since every resolved
      product is still there; it fails without writing anything, or succeeds
      and appends one sale. */
  function Checkout(store: Store, sales: seq<Sale>, req: SaleRequest,
                    now: Instant, draw: nat, saleId: SaleId): (o: CheckoutOutcome)
    ensures o.result != Err(StockUpdateFailed)
    ensures o.result.Err? ==> o.store == store && o.sales == sales
    ensures o.result.Ok? <==> req.items != [] && ResolveLines(store, req.items).Ok?
    ensures o.result.Ok? ==> o.sales == sales + [o.result.value]
  {
    var o := CheckoutAgainst(store, store, sales, req, now, draw, saleId);
    var items := ResolveLines(store, req.items);
    DeductFailsAtFirstMissing(store, if items.Ok? then items.value else [], now);
    assert items.Ok? ==> forall i | 0 <= i < |items.value| :: items.value[i].productId in store by {
      if items.Ok? {
        forall i | 0 <= i < |items.value| ensures items.value[i].productId in store {
          assert ResolveLine(store, req.items[i]) == Ok(items.value[i]);
        }
      }
    }
    o
  }

  // ---------------------------------------------------------------------
  // Worked examples

  const Noon: Instant := DateTime(2026, 1, 16, 12, 0, 0)

  function Milk(stock: int): Product {
    Product("123", "Milk", "General", 1000, stock, 10, true, Noon, Noon)
  }

  function MilkItem(qty: int): SaleItem {
    SaleItem(0, "123", "Milk", 1000, qty, 1000 * qty)
  }

  lemma MilkLine(stock: int, qty: int)
    requires 0 < qty <= stock
    ensures ResolveLine(map[0 := Milk(stock)], LineRequest("123", qty)) == Ok(MilkItem(qty))
  {
    var store := map[0 := Milk(stock)];
    assert !IsBlank("123") by { assert !IsWhiteSpace("123"[0]); }
    assert 0 in store && store[0].barcode == "123" && store[0].isActive;
    assert FindActiveByBarcode(store, "123") == Some(0);
  }

  /** A one-line request for milk within its stock resolves to one item. */
  lemma MilkRequest(stock: int, qty: int)
    requires 0 < qty <= stock
    ensures ResolveLines(map[0 := Milk(stock)], [LineRequest("123", qty)]) == Ok([MilkItem(qty)])
  {
    MilkLine(stock, qty);
    ResolveOneLine(map[0 := Milk(stock)], LineRequest("123", qty));
  }

  /** Three units at 10.00 from a stock of 20 with the default request: the
      subtotal is 30.00, the tax 1.50, the grand total 31.50, and 17 units
      remain. */
  lemma CheckoutExample()
    ensures var o := Checkout(map[0 := Milk(20)], [], DefaultRequest([LineRequest("123", 3)]), Noon, 0, 7);
            && o.result.Ok?
            && o.result.value.subTotal == 3000
            && o.result.value.taxAmount == 150
            && o.result.value.grandTotal == 3150
            && o.result.value.cashierName == "Cashier" && o.result.value.paymentMethod == "CASH"
            && o.store[0].stock == 17
            && o.sales == [o.result.value]
  {
    var store := map[0 := Milk(20)];
    var req := DefaultRequest([LineRequest("123", 3)]);
    MilkRequest(20, 3);
    var o := CheckoutAgainst(store, store, [], req, Noon, 0, 7);
    assert Checkout(store, [], req, Noon, 0, 7) == o;
    var sale := o.result.value;
    assert sale.items == [MilkItem(3)];
    assert SumLineTotals([MilkItem(3)]) == 3000;
    TaxOfThirty();
    assert ComputeTotals(sale.items, 0, DefaultTaxRate).taxAmount == 150;
    DefaultNames();
    DeductStock(store, [MilkItem(3)], Noon, 0);
  }

  /** The request defaults pass through the normalisation unchanged. */
  lemma DefaultNames()
    ensures CashierName("Cashier") == "Cashier" && PaymentMethod("CASH") == "CASH"
  {
    assert !IsBlank("Cashier") by { assert !IsWhiteSpace("Cashier"[0]); }
    assert !IsBlank("CASH") by { assert !IsWhiteSpace("CASH"[0]); }
    TrimOfTrimmed("Cashier");
    TrimOfTrimmed("CASH");
    assert ToUpper("CASH") == "CASH";
  }

  /** Each line is checked against the stock before the checkout, so two
      lines of 3 pass against a stock of 5 and leave -1. */
  lemma DuplicateLinesDriveStockNegative()
    ensures var o := Checkout(map[0 := Milk(5)], [],
                              DefaultRequest([LineRequest("123", 3), LineRequest("123", 3)]), Noon, 0, 7);
            && o.result.Ok?
            && o.store[0].stock == -1
  {
    var store := map[0 := Milk(5)];
    var lines := [LineRequest("123", 3), LineRequest("123", 3)];
    MilkLine(5, 3);
    ResolveOneLine(store, LineRequest("123", 3));
    ResolveLinesCons(store, LineRequest("123", 3), [LineRequest("123", 3)]);
    assert [LineRequest("123", 3)] + [LineRequest("123", 3)] == lines;
    assert [MilkItem(3)] + [MilkItem(3)] == [MilkItem(3), MilkItem(3)];
    assert ResolveLines(store, lines) == Ok([MilkItem(3), MilkItem(3)]);
    DeductStock(store, [MilkItem(3), MilkItem(3)], Noon, 0);
  }

  function Bread(): Product {
    Product("456", "Bread", "General", 500, 8, 10, true, Noon, Noon)
  }

  function BreadItem(): SaleItem {
    SaleItem(1, "456", "Bread", 500, 1, 500)
  }

  /** Both lines resolve against the collection holding milk and bread. */
  lemma MilkAndBreadResolve()
    ensures ResolveLines(map[0 := Milk(20), 1 := Bread()], [LineRequest("123", 2), LineRequest("456", 1)])
            == Ok([MilkItem(2), BreadItem()])
  {
    var seen := map[0 := Milk(20), 1 := Bread()];
    var lines := [LineRequest("123", 2), LineRequest("456", 1)];
    assert !IsBlank("123") by { assert !IsWhiteSpace("123"[0]); }
    assert !IsBlank("456") by { assert !IsWhiteSpace("456"[0]); }
    assert "123" != "456" by { assert "123"[0] != "456"[0]; }
    assert 0 in seen && seen[0].barcode == "123" && seen[0].isActive;
    assert 1 in seen && seen[1].barcode == "456" && seen[1].isActive;
    assert FindActiveByBarcode(seen, "123") == Some(0);
    assert FindActiveByBarcode(seen, "456") == Some(1);
    assert ResolveLine(seen, lines[0]) == Ok(MilkItem(2));
    assert ResolveLine(seen, lines[1]) == Ok(BreadItem());
    ResolveOneLine(seen, lines[1]);
    ResolveLinesCons(seen, lines[0], [lines[1]]);
    assert [lines[0]] + [lines[1]] == lines;
    assert [MilkItem(2)] + [BreadItem()] == [MilkItem(2), BreadItem()];
  }

  /** When the second line's product disappears between the lookups and the
      decrements, the checkout fails and the first product keeps its
      decrement. */
  lemma FailedCheckoutKeepsEarlierDecrements()
    ensures var o := CheckoutAgainst(map[0 := Milk(20), 1 := Bread()], map[0 := Milk(20)], [],
                                     DefaultRequest([LineRequest("123", 2), LineRequest("456", 1)]), Noon, 0, 7);
            && o.result == Err(StockUpdateFailed)
            && o.sales == []
            && o.store[0].stock == 18
  {
    var current := map[0 := Milk(20)];
    MilkAndBreadResolve();
    var after := current[0 := Decrement(current[0], 2, Noon)];
    assert Deduct(after, [BreadItem()], Noon) == Deduction(after, Some(0));
    assert [MilkItem(2), BreadItem()][1..] == [BreadItem()];
    assert Deduct(current, [MilkItem(2), BreadItem()], Noon) == Deduction(after, Some(1));
  }
}
