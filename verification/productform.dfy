/**
 The catalog page's product form (`ProductsPage.jsx`): the add and edit
 dialogs' field defaults, the first-error validator that runs before a
 save, the request body a save sends, and the low-stock flag of the
 product table. The numeric inputs are taken to hold numbers already;
 `Number(...)` of arbitrary text is not modelled.
 */
module ProductForm {
  import opened Text
  import opened Results
  import opened Money
  import opened Clock
  import opened Catalog
  import opened SaleCheckout

  /** The dialog's state. */
  datatype Form = Form(
    barcode: string,
    name: string,
    category: string,
    price: Cents,
    stock: int,
    reorderLevel: int,
    isActive: bool)

  /** `emptyForm`, the state the add dialog opens with. */
  const EmptyForm := Form("", "", "General", 0, 0, 10, true)

  /** A product as the list endpoint hands it to the page; a field the
      document lacks is `None` (JavaScript's `null`/`undefined`). */
  datatype ProductJson = ProductJson(
    id: string,
    barcode: Option<string>,
    name: Option<string>,
    category: Option<string>,
    price: Option<Cents>,
    stock: Option<int>,
    reorderLevel: Option<int>,
    isActive: Option<bool>)

  /** JavaScript's `x ?? d`: only a missing value is replaced. */
  function OrDefault<T>(x: Option<T>, d: T): (r: T)
    ensures x.Some? ==> r == x.value
    ensures x.None? ==> r == d
  {
    if x.Some? then x.value else d
  }

  /** `openEdit(product)`: each missing field takes the add dialog's
      default, except that a missing active flag reads as `false`
      (`Boolean(undefined)`). */
  function OpenEdit(p: ProductJson): (f: Form)
    ensures p.barcode.None? && p.name.None? && p.category.None? && p.price.None?
            && p.stock.None? && p.reorderLevel.None? && p.isActive.None?
            ==> f == EmptyForm.(isActive := false)
    ensures f.barcode == if p.barcode.Some? then p.barcode.value else ""
    ensures f.name == if p.name.Some? then p.name.value else ""
    ensures f.category == if p.category.Some? then p.category.value else "General"
    ensures f.price == if p.price.Some? then p.price.value else 0
    ensures f.stock == if p.stock.Some? then p.stock.value else 0
    ensures f.reorderLevel == if p.reorderLevel.Some? then p.reorderLevel.value else 10
    ensures f.isActive <==> p.isActive == Some(true)
  {
    Form(OrDefault(p.barcode, ""), OrDefault(p.name, ""), OrDefault(p.category, "General"),
         OrDefault(p.price, 0), OrDefault(p.stock, 0), OrDefault(p.reorderLevel, 10),
         OrDefault(p.isActive, false))
  }

  /** `validateForm()`: the message of the first failing check, in the
      order barcode, name, price, stock, reorder level; "" when every check
      passes. A text field fails when trimming leaves nothing. */
  function ValidateForm(f: Form): (msg: string)
    ensures msg == "Barcode is required" <==> IsBlank(f.barcode)
    ensures msg == "Name is required" <==> !IsBlank(f.barcode) && IsBlank(f.name)
    ensures msg == "Price cannot be negative" <==>
              !IsBlank(f.barcode) && !IsBlank(f.name) && f.price < 0
    ensures msg == "Stock cannot be negative" <==>
              !IsBlank(f.barcode) && !IsBlank(f.name) && f.price >= 0 && f.stock < 0
    ensures msg == "Reorder level cannot be negative" <==>
              !IsBlank(f.barcode) && !IsBlank(f.name) && f.price >= 0 && f.stock >= 0
              && f.reorderLevel < 0
    ensures msg == "" <==>
              !IsBlank(f.barcode) && !IsBlank(f.name) && f.price >= 0 && f.stock >= 0
              && f.reorderLevel >= 0
  {
    TrimEmptyIffBlank(f.barcode);
    TrimEmptyIffBlank(f.name);
    if Trim(f.barcode) == "" then "Barcode is required"
    else if Trim(f.name) == "" then "Name is required"
    else if f.price < 0 then "Price cannot be negative"
    else if f.stock < 0 then "Stock cannot be negative"
    else if f.reorderLevel < 0 then "Reorder level cannot be negative"
    else ""
  }

  /** The request body a save sends: barcode and name trimmed, an empty
      category replaced by "General" before trimming. */
  function SavePayload(f: Form): (dto: ProductInput)
    ensures dto.barcode == Trim(f.barcode) && dto.name == Trim(f.name)
    ensures f.category == "" ==> dto.category == "General"
    ensures f.category != "" ==> dto.category == Trim(f.category)
    ensures dto.price == f.price && dto.stock == f.stock
    ensures dto.reorderLevel == f.reorderLevel && dto.isActive == f.isActive
  {
    ProductInput(Trim(f.barcode), Trim(f.name), Trim(OrElse(f.category, "General")),
                 f.price, f.stock, f.reorderLevel, f.isActive)
  }

  /** Whether the dialog adds a product or edits the product with the
      given id. */
  datatype Mode = Add | Edit(id: string)

  /** What pressing Save does: show the validator's message, or call the
      create or the update endpoint with the payload. */
  datatype SaveAction = ShowError(msg: string) | CreateCall(dto: ProductInput) | UpdateCall(id: string, dto: ProductInput)

  /** `handleSave()`: a non-empty message stops the save before any request;
      otherwise the payload goes to create or to update by mode. */
  function HandleSave(mode: Mode, f: Form): (a: SaveAction)
    ensures a.ShowError? <==> ValidateForm(f) != ""
    ensures a.ShowError? ==> a.msg == ValidateForm(f)
    ensures a.CreateCall? <==> ValidateForm(f) == "" && mode == Add
    ensures a.UpdateCall? <==> ValidateForm(f) == "" && mode.Edit?
    ensures a.UpdateCall? ==> a.id == mode.id
    ensures !a.ShowError? ==> a.dto == SavePayload(f)
  {
    var msg := ValidateForm(f);
    if msg != "" then ShowError(msg)
    else match mode
      case Add => CreateCall(SavePayload(f))
      case Edit(id) => UpdateCall(id, SavePayload(f))
  }

  /** `p.stock <= p.reorderLevel`, the table's low-stock badge. */
  predicate LowStock(p: Product) {
    p.stock <= p.reorderLevel
  }

  // ---------------------------------------------------------------------
  // Properties

  /** The add dialog cannot be saved as it opens. */
  lemma EmptyFormIsRefused()
    ensures ValidateForm(EmptyForm) == "Barcode is required"
    ensures HandleSave(Add, EmptyForm) == ShowError("Barcode is required")
  {
    assert IsBlank(EmptyForm.barcode);
  }

  /** Whatever the page lets through also passes the create endpoint's own
      validation: the page's checks are at least as strict. */
  lemma SavedFormPassesServerValidation(mode: Mode, f: Form)
    requires !HandleSave(mode, f).ShowError?
    ensures CreateProblem(HandleSave(mode, f).dto) == None
  {
    TrimKeepsBlankness(f.barcode);
    TrimKeepsBlankness(f.name);
  }

  /** The page sends an already trimmed barcode, so on its requests the
      create endpoint's check of the untrimmed barcode is the check of the
      stored one. */
  lemma PageCreatesAreChecked(store: Store, f: Form, newId: ProductId, now: Instant)
    requires newId !in store
    ensures Create(store, SavePayload(f), newId, now) == CreateChecked(store, SavePayload(f), newId, now)
  {
    TrimIdempotent(f.barcode);
    CreateCheckedAgreesOnTrimmedInput(store, SavePayload(f), newId, now);
  }

  /** A product created from the page is stored with exactly the text the
      page sent: trimming again changes nothing. */
  lemma CreatedProductMatchesPayload(f: Form, now: Instant)
    ensures var dto := SavePayload(f);
            var p := NewProduct(dto, now);
            p.barcode == dto.barcode && p.name == dto.name && p.category == dto.category
  {
    TrimIdempotent(f.barcode);
    TrimIdempotent(f.name);
    TrimIdempotent(OrElse(f.category, "General"));
  }

  /** A category made only of white space is not replaced by "General": it
      is sent, and stored, as the empty string. */
  lemma BlankCategorySentEmpty(f: Form)
    requires f.category != "" && IsBlank(f.category)
    ensures SavePayload(f).category == ""
  {
    TrimEmptyIffBlank(f.category);
  }

  /** The document as the list endpoint serialises it, every field present. */
  function ToJson(id: string, p: Product): ProductJson {
    ProductJson(id, Some(p.barcode), Some(p.name), Some(p.category), Some(p.price), Some(p.stock),
                Some(p.reorderLevel), Some(p.isActive))
  }

  /** Opening a stored product for editing and saving it untouched sends
      back its own fields, so the update rewrites only its modification
      time. This needs the text fields to be trimmed, as create and update
      store them, and the category to be non-empty. */
  lemma UntouchedEditResendsProduct(id: string, p: Product, now: Instant)
    requires Trim(p.barcode) == p.barcode && Trim(p.name) == p.name && Trim(p.category) == p.category
    requires p.category != ""
    ensures SavePayload(OpenEdit(ToJson(id, p)))
            == ProductInput(p.barcode, p.name, p.category, p.price, p.stock, p.reorderLevel, p.isActive)
    ensures Overwrite(p, SavePayload(OpenEdit(ToJson(id, p))), now) == p.(updatedAt := now)
  {
  }

  /** The quantity a sale's lines take from one product is never negative
      when every line's quantity is positive. */
  lemma {:induction false} QtyForNonNegative(items: seq<SaleItem>, k: ProductId)
    requires forall i | 0 <= i < |items| :: items[i].qty > 0
    ensures QtyFor(items, k) >= 0
    decreases |items|
  {
    if items != [] {
      assert forall i | 0 <= i < |items[1..]| :: items[1..][i] == items[i + 1];
      QtyForNonNegative(items[1..], k);
    }
  }

  /** Every resolved line takes a positive quantity. */
  lemma ResolvedQuantitiesPositive(store: Store, lines: seq<LineRequest>, items: seq<SaleItem>)
    requires ResolveLines(store, lines) == Ok(items)
    ensures forall i | 0 <= i < |items| :: items[i].qty > 0
  {
    forall i | 0 <= i < |items| ensures items[i].qty > 0 {
      assert ResolveLine(store, lines[i]) == Ok(items[i]);
    }
  }

  /** A checkout only lowers stock and keeps the reorder level, so a
      product flagged low on stock stays flagged. */
  lemma CheckoutKeepsLowStock(store: Store, sales: seq<Sale>, req: SaleRequest,
                              now: Instant, draw: nat, saleId: SaleId, k: ProductId)
    requires k in store && LowStock(store[k])
    requires Checkout(store, sales, req, now, draw, saleId).result.Ok?
    ensures k in Checkout(store, sales, req, now, draw, saleId).store
    ensures LowStock(Checkout(store, sales, req, now, draw, saleId).store[k])
  {
    var o := CheckoutAgainst(store, store, sales, req, now, draw, saleId);
    assert Checkout(store, sales, req, now, draw, saleId) == o;
    CheckoutRecordsResolvedLines(store, sales, req, now, draw, saleId);
    ResolvedQuantitiesPositive(store, req.items, o.result.value.items);
    QtyForNonNegative(o.result.value.items, k);
    CheckoutSuccess(store, store, sales, req, now, draw, saleId, k);
  }
}
