/**
 The till's cart on the point-of-sale page (`PosPage.jsx`): lines keyed by
 product, with increment, decrement, removal, adding a scanned product, the
 discount preview, and the checkout request built from the cart. Amounts are
 exact cents here; the page's floating-point rounding is not modelled.
 */
module Cart {
  import opened Text
  import opened Money
  import opened Results
  import opened Catalog
  import opened SaleCheckout

  /** A product as the barcode lookup hands it to the page: `id`, `_id`
      (the empty string when absent), barcode, name and price. */
  datatype ProductView = ProductView(id: string, rawId: string, barcode: string, name: string, price: Cents)

  datatype CartLine = CartLine(id: string, productId: string, barcode: string, name: string, unitPrice: Cents, qty: int)

  type Cart = seq<CartLine>

  predicate BarcodesDistinct(cart: Cart) {
    forall i, j | 0 <= i < j < |cart| :: cart[i].barcode != cart[j].barcode
  }

  predicate QuantitiesPositive(cart: Cart) {
    forall i | 0 <= i < |cart| :: cart[i].qty >= 1
  }

  /** What every reachable cart satisfies: one line per barcode, and no line
      with a quantity below one. */
  predicate WellFormed(cart: Cart) {
    BarcodesDistinct(cart) && QuantitiesPositive(cart)
  }

  // ---------------------------------------------------------------------
  // Quantity buttons

  /** `cart.map(i => i.id === id ? {...i, qty: i.qty + delta} : i)`: every
      line with that id moves by `delta`, and nothing else changes. */
  function Bump(cart: Cart, id: string, delta: int): (r: Cart)
    ensures |r| == |cart|
    ensures forall i | 0 <= i < |r| ::
              && r[i].qty == cart[i].qty + (if cart[i].id == id then delta else 0)
              && r[i].(qty := cart[i].qty) == cart[i]
  {
    seq(|cart|, i requires 0 <= i < |cart| =>
      if cart[i].id == id then cart[i].(qty := cart[i].qty + delta) else cart[i])
  }

  /** `cart.filter(keep)`: the lines `keep` accepts, in their order. */
  function Filter(cart: Cart, keep: CartLine -> bool): (r: Cart)
    ensures |r| <= |cart|
    ensures forall i | 0 <= i < |r| :: keep(r[i]) && r[i] in cart
    ensures forall j | 0 <= j < |cart| && keep(cart[j]) :: cart[j] in r
    decreases |cart|
  {
    if cart == [] then []
    else
      var rest := Filter(cart[1..], keep);
      assert forall j | 1 <= j < |cart| :: cart[j] == cart[1..][j - 1];
      if keep(cart[0]) then [cart[0]] + rest else rest
  }

  /** Filtering works line by line: filtering two carts joined is joining
      the two filtered carts, so the kept lines keep their relative order. */
  lemma {:induction false} FilterConcat(a: Cart, b: Cart, keep: CartLine -> bool)
    ensures Filter(a + b, keep) == Filter(a, keep) + Filter(b, keep)
    decreases |a|
  {
    if a == [] {
      assert a + b == b;
    } else {
      assert (a + b)[0] == a[0];
      assert (a + b)[1..] == a[1..] + b;
      FilterConcat(a[1..], b, keep);
    }
  }

  /** Filtering a cart with distinct barcodes leaves them distinct. */
  lemma {:induction false} FilterKeepsDistinct(cart: Cart, keep: CartLine -> bool)
    requires BarcodesDistinct(cart)
    ensures BarcodesDistinct(Filter(cart, keep))
    decreases |cart|
  {
    if cart != [] {
      var rest := Filter(cart[1..], keep);
      FilterKeepsDistinct(cart[1..], keep);
      forall i | 0 <= i < |rest| ensures rest[i].barcode != cart[0].barcode {
        var j :| 0 <= j < |cart[1..]| && cart[1..][j] == rest[i];
        assert cart[1..][j] == cart[j + 1];
      }
    }
  }

  /** A filter that accepts every line changes nothing. */
  lemma {:induction false} FilterKeepsAll(cart: Cart, keep: CartLine -> bool)
    requires forall i | 0 <= i < |cart| :: keep(cart[i])
    ensures Filter(cart, keep) == cart
    decreases |cart|
  {
    if cart != [] {
      assert forall j | 1 <= j < |cart| :: cart[j] == cart[1..][j - 1];
      FilterKeepsAll(cart[1..], keep);
    }
  }

  /** `incQty(id)`: one more of every line with that id. */
  function IncQty(cart: Cart, id: string): (r: Cart)
    ensures |r| == |cart|
    ensures forall i | 0 <= i < |r| ::
              && r[i].qty == cart[i].qty + (if cart[i].id == id then 1 else 0)
              && r[i].(qty := cart[i].qty) == cart[i]
    ensures WellFormed(cart) ==> WellFormed(r)
  {
    Bump(cart, id, 1)
  }

  /** `decQty(id)`: one fewer of every line with that id, then every line
      left with no quantity is dropped. No line below one survives; a line
      of another id that was positive stays as it was, and a line of that id
      with two or more stays with one fewer. */
  function DecQty(cart: Cart, id: string): (r: Cart)
    ensures |r| <= |cart|
    ensures QuantitiesPositive(r)
    ensures forall j | 0 <= j < |cart| && cart[j].id != id && cart[j].qty >= 1 :: cart[j] in r
    ensures forall j | 0 <= j < |cart| && cart[j].id == id && cart[j].qty >= 2 ::
              cart[j].(qty := cart[j].qty - 1) in r
  {
    var bumped := Bump(cart, id, -1);
    assert forall j | 0 <= j < |cart| :: bumped[j] == if cart[j].id == id then cart[j].(qty := cart[j].qty - 1) else cart[j];
    Filter(bumped, (l: CartLine) => l.qty > 0)
  }

  /** Taking one off keeps the cart well formed. */
  lemma DecQtyKeepsWellFormed(cart: Cart, id: string)
    requires WellFormed(cart)
    ensures WellFormed(DecQty(cart, id))
  {
    var bumped := Bump(cart, id, -1);
    assert BarcodesDistinct(bumped);
    FilterKeepsDistinct(bumped, (l: CartLine) => l.qty > 0);
  }

  /** Taking one off works line by line: a single line loses a unit and
      goes when none is left, and the result for two joined carts is the
      join of the results, so the surviving lines keep their order. */
  lemma DecQtyKeepsOrder(a: Cart, b: Cart, l: CartLine, id: string)
    ensures DecQty(a + b, id) == DecQty(a, id) + DecQty(b, id)
    ensures DecQty([l], id) ==
              var m := if l.id == id then l.(qty := l.qty - 1) else l;
              if m.qty > 0 then [m] else []
  {
    assert Bump(a + b, id, -1) == Bump(a, id, -1) + Bump(b, id, -1);
    FilterConcat(Bump(a, id, -1), Bump(b, id, -1), (x: CartLine) => x.qty > 0);
    assert Bump([l], id, -1)[1..] == [];
  }

  /** With positive quantities, taking one off a line after adding one puts
      the cart back as it was. */
  lemma DecUndoesInc(cart: Cart, id: string)
    requires QuantitiesPositive(cart)
    ensures DecQty(IncQty(cart, id), id) == cart
  {
    var back := Bump(IncQty(cart, id), id, -1);
    assert back == cart;
    FilterKeepsAll(cart, (l: CartLine) => l.qty > 0);
  }

  /** `removeItem(id)`: the lines with that id are gone and every other
      line stays; `RemoveItemKeepsOrder` states that the order is kept. */
  function RemoveItem(cart: Cart, id: string): (r: Cart)
    ensures forall i | 0 <= i < |r| :: r[i].id != id && r[i] in cart
    ensures forall j | 0 <= j < |cart| && cart[j].id != id :: cart[j] in r
  {
    Filter(cart, (l: CartLine) => l.id != id)
  }

  /** Removal keeps the cart well formed. */
  lemma RemoveItemKeepsWellFormed(cart: Cart, id: string)
    requires WellFormed(cart)
    ensures WellFormed(RemoveItem(cart, id))
  {
    FilterKeepsDistinct(cart, (l: CartLine) => l.id != id);
  }

  /** Removal works piece by piece: a single line goes exactly when it has
      that id, and the removal from two joined carts is the join of the
      removals, so the remaining lines keep their order. */
  lemma RemoveItemKeepsOrder(a: Cart, b: Cart, l: CartLine, id: string)
    ensures RemoveItem(a + b, id) == RemoveItem(a, id) + RemoveItem(b, id)
    ensures RemoveItem([l], id) == if l.id == id then [] else [l]
  {
    FilterConcat(a, b, (x: CartLine) => x.id != id);
    assert [l][1..] == [];
  }

  // ---------------------------------------------------------------------
  // Scanning a barcode

  /** The line a first scan of `p` appends: `id` falls back from `id` to
      `_id` to the barcode, `productId` from `id` to `_id` to "". */
  function NewLine(p: ProductView): (l: CartLine)
    ensures l.barcode == p.barcode && l.name == p.name && l.unitPrice == p.price && l.qty == 1
    ensures l.id != "" || p.barcode == ""
  {
    CartLine(OrElse(OrElse(p.id, p.rawId), p.barcode), OrElse(p.id, p.rawId), p.barcode, p.name, p.price, 1)
  }

  /** The merge in `handleAddByBarcode`: a product already in the cart (same
      barcode) gets one more unit; a new one is appended with quantity 1. */
  function AddProduct(cart: Cart, p: ProductView): (r: Cart)
    ensures (exists i | 0 <= i < |cart| :: cart[i].barcode == p.barcode) ==>
              && |r| == |cart|
              && forall i | 0 <= i < |r| ::
                   && r[i].qty == cart[i].qty + (if cart[i].barcode == p.barcode then 1 else 0)
                   && r[i].(qty := cart[i].qty) == cart[i]
    ensures (forall i | 0 <= i < |cart| :: cart[i].barcode != p.barcode) ==> r == cart + [NewLine(p)]
    ensures WellFormed(cart) ==> WellFormed(r)
    ensures exists i | 0 <= i < |r| :: r[i].barcode == p.barcode
  {
    if exists i | 0 <= i < |cart| :: cart[i].barcode == p.barcode then
      seq(|cart|, i requires 0 <= i < |cart| =>
        if cart[i].barcode == p.barcode then cart[i].(qty := cart[i].qty + 1) else cart[i])
    else
      var r := cart + [NewLine(p)];
      assert r[|cart|].barcode == p.barcode;
      r
  }

  /** The page after a scan: the cart, the barcode box, and whether this
      scan failed (and set an error). A scan that does not fail leaves any
      earlier error as it was when the box is blank, and clears it
      otherwise. */
  datatype ScanOutcome = ScanOutcome(cart: Cart, barcodeInput: string, failed: bool)

  /** `handleAddByBarcode`: a blank box does nothing; otherwise the trimmed
      code is looked up (`lookup` stands for the server's answer, `None` for
      a failed request), a found product is merged into the cart and the box
      is cleared, and a failure leaves cart and box as they were. */
  function AddByBarcode(cart: Cart, input: string, lookup: string -> Option<ProductView>): (o: ScanOutcome)
    ensures IsBlank(input) ==> o == ScanOutcome(cart, input, false)
    ensures !IsBlank(input) && lookup(Trim(input)).None? ==> o == ScanOutcome(cart, input, true)
    ensures !IsBlank(input) && lookup(Trim(input)).Some? ==>
              o == ScanOutcome(AddProduct(cart, lookup(Trim(input)).value), "", false)
    ensures WellFormed(cart) ==> WellFormed(o.cart)
  {
    var code := Trim(input);
    TrimEmptyIffBlank(input);
    if code == [] then ScanOutcome(cart, input, false)
    else match lookup(code)
      case None => ScanOutcome(cart, input, true)
      case Some(p) => ScanOutcome(AddProduct(cart, p), "", false)
  }

  // ---------------------------------------------------------------------
  // Totals preview and checkout request

  function Subtotal(cart: Cart): Cents {
    if cart == [] then 0 else cart[0].unitPrice * cart[0].qty + Subtotal(cart[1..])
  }

  function Min(a: int, b: int): int { if a < b then a else b }
  function Max(a: int, b: int): int { if a < b then b else a }

  /** `Math.min(Math.max(discount, 0), subTotal)`. */
  function PreviewDiscount(discount: Cents, subTotal: Cents): Cents {
    Min(Max(discount, 0), subTotal)
  }

  /** The page's preview clamps the discount exactly as the server does. */
  lemma PreviewDiscountMatchesServer(discount: Cents, subTotal: Cents)
    ensures PreviewDiscount(discount, subTotal) == ClampDiscount(discount, subTotal)
  {
  }

  /** The checkout request the page posts: nothing for an empty cart;
      otherwise one `(barcode, qty)` item per cart line in cart order, with
      an empty cashier name replaced by "Cashier". */
  function BuildPayload(cart: Cart, cashierName: string, paymentMethod: string,
                        discount: Cents, taxRate: Rate): (r: Option<SaleRequest>)
    ensures r.None? <==> cart == []
    ensures r.Some? ==>
              && |r.value.items| == |cart|
              && (forall i | 0 <= i < |cart| ::
                    r.value.items[i] == LineRequest(cart[i].barcode, cart[i].qty))
              && (cashierName == "" ==> r.value.cashierName == "Cashier")
              && (cashierName != "" ==> r.value.cashierName == cashierName)
              && r.value.paymentMethod == paymentMethod
              && r.value.discount == discount && r.value.taxRate == taxRate
  {
    if cart == [] then None
    else
      Some(SaleRequest(OrElse(cashierName, "Cashier"), paymentMethod, discount, taxRate,
                       seq(|cart|, i requires 0 <= i < |cart| => LineRequest(cart[i].barcode, cart[i].qty))))
  }

  /** A well-formed cart whose barcodes are not blank never trips the
      server's per-line barcode and quantity checks. */
  lemma PayloadPassesLineChecks(cart: Cart, store: Store, cashierName: string, paymentMethod: string,
                                discount: Cents, taxRate: Rate)
    requires WellFormed(cart) && cart != []
    requires forall i | 0 <= i < |cart| :: !IsBlank(cart[i].barcode)
    ensures var req := BuildPayload(cart, cashierName, paymentMethod, discount, taxRate).value;
            forall i | 0 <= i < |req.items| ::
              && ResolveLine(store, req.items[i]) != Err(BarcodeRequired)
              && ResolveLine(store, req.items[i]) != Err(QtyNotPositive)
  {
  }

  /** When the server still charges the prices the cart shows, the sale's
      subtotal equals the subtotal the page displayed. */
  lemma {:induction false} SubtotalMatchesServer(cart: Cart, items: seq<SaleItem>)
    requires |items| == |cart|
    requires forall i | 0 <= i < |cart| ::
               items[i].lineTotal == items[i].unitPrice * items[i].qty
               && items[i].unitPrice == cart[i].unitPrice && items[i].qty == cart[i].qty
    ensures SumLineTotals(items) == Subtotal(cart)
    decreases |cart|
  {
    if cart != [] {
      SubtotalMatchesServer(cart[1..], items[1..]);
    }
  }

  /** Every active product with a cart line's barcode still has the price
      the line shows. */
  predicate PricesCurrent(cart: Cart, store: Store) {
    forall i, k | 0 <= i < |cart| && k in store && store[k].barcode == cart[i].barcode && store[k].isActive ::
      store[k].price == cart[i].unitPrice
  }

  /** The items the server resolves from the cart's request carry the
      cart's quantities and, when the store's prices match the cart's, the
      cart's prices, so they sum to the cart's subtotal. */
  lemma ResolvedItemsFollowCart(cart: Cart, store: Store, req: SaleRequest, items: seq<SaleItem>)
    requires |req.items| == |cart|
    requires forall i | 0 <= i < |cart| :: req.items[i] == LineRequest(cart[i].barcode, cart[i].qty)
    requires PricesCurrent(cart, store)
    requires ResolveLines(store, req.items) == Ok(items)
    ensures |items| == |cart|
    ensures forall i | 0 <= i < |cart| ::
              && items[i].lineTotal == items[i].unitPrice * items[i].qty
              && items[i].unitPrice == cart[i].unitPrice && items[i].qty == cart[i].qty
    ensures SumLineTotals(items) == Subtotal(cart)
  {
    forall i | 0 <= i < |cart|
      ensures items[i].lineTotal == items[i].unitPrice * items[i].qty
      ensures items[i].unitPrice == cart[i].unitPrice && items[i].qty == cart[i].qty
    {
      assert ResolveLine(store, req.items[i]) == Ok(items[i]);
    }
    SubtotalMatchesServer(cart, items);
  }

  /** The whole round trip: posting the cart, a successful checkout records
      the cart's subtotal whenever the store's prices match the cart's. */
  lemma CheckoutChargesCartSubtotal(cart: Cart, store: Store, sales: seq<Sale>, req: SaleRequest,
                                    cashierName: string, paymentMethod: string, discount: Cents,
                                    taxRate: Rate, now: Clock.Instant, draw: nat, saleId: SaleId)
    requires BuildPayload(cart, cashierName, paymentMethod, discount, taxRate) == Some(req)
    requires PricesCurrent(cart, store)
    requires Checkout(store, sales, req, now, draw, saleId).result.Ok?
    ensures Checkout(store, sales, req, now, draw, saleId).result.value.subTotal == Subtotal(cart)
  {
    CheckoutRecordsResolvedLines(store, sales, req, now, draw, saleId);
    var items := Checkout(store, sales, req, now, draw, saleId).result.value.items;
    ResolvedItemsFollowCart(cart, store, req, items);
  }
}
