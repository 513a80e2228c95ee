/**
 The product collection and the catalog administration endpoints
 (`ProductsController.Create`, `Update`, `Delete`) as transitions on it.

 The collection is a map from store-assigned identifiers to product
 documents. Where the database returns "the first matching document" the
 model takes the matching document with the least identifier.
 */
module Catalog {
  import opened Text
  import opened Money
  import opened Clock
  import opened Results

  /** The store-assigned document identifier. */
  type ProductId = nat

  datatype Product = Product(
    barcode: string,
    name: string,
    category: string,
    price: Cents,
    stock: int,
    reorderLevel: int,
    isActive: bool,
    createdAt: Instant,
    updatedAt: Instant)

  type Store = map<ProductId, Product>

  /** Barcodes are a unique business key across active and inactive
      products alike. */
  ghost predicate BarcodesUnique(store: Store) {
    forall j, k | j in store && k in store && j != k :: store[j].barcode != store[k].barcode
  }

  // ---------------------------------------------------------------------
  // Lookups

  lemma {:induction false} LeastBelow(keys: set<ProductId>, x: ProductId)
    requires x in keys
    ensures exists k :: k in keys && forall j | j in keys :: k <= j
    decreases x
  {
    if !forall j | j in keys :: x <= j {
      var y :| y in keys && y < x;
      LeastBelow(keys, y);
    }
  }

  /** The least identifier of a non-empty set. */
  function LeastKey(keys: set<ProductId>): (k: ProductId)
    requires keys != {}
    ensures k in keys && forall j | j in keys :: k <= j
  {
    var x :| x in keys;
    LeastBelow(keys, x);
    var k :| k in keys && forall j | j in keys :: k <= j;
    k
  }

  /** `GetByBarcodeAsync`: the first product, active or not, whose barcode is
      exactly `barcode`. */
  function FindByBarcode(store: Store, barcode: string): (r: Option<ProductId>)
    ensures r.None? <==> forall k | k in store :: store[k].barcode != barcode
    ensures r.Some? ==> r.value in store && store[r.value].barcode == barcode
    ensures r.Some? ==> forall k | k in store && store[k].barcode == barcode :: r.value <= k
  {
    var matches := set k | k in store && store[k].barcode == barcode;
    assert forall k | k in store && store[k].barcode == barcode :: k in matches;
    if matches == {} then None else Some(LeastKey(matches))
  }

  /** The checkout lookup: the first ACTIVE product whose barcode is exactly
      `barcode`. */
  function FindActiveByBarcode(store: Store, barcode: string): (r: Option<ProductId>)
    ensures r.None? <==> forall k | k in store :: !(store[k].barcode == barcode && store[k].isActive)
    ensures r.Some? ==> r.value in store && store[r.value].barcode == barcode && store[r.value].isActive
    ensures r.Some? ==> forall k | k in store && store[k].barcode == barcode && store[k].isActive :: r.value <= k
  {
    var matches := set k | k in store && store[k].barcode == barcode && store[k].isActive;
    assert forall k | k in store && store[k].barcode == barcode && store[k].isActive :: k in matches;
    if matches == {} then None else Some(LeastKey(matches))
  }

  /** With unique barcodes there is at most one candidate, so the choice of
      "first" document does not matter. */
  lemma UniqueBarcodeLookup(store: Store, k: ProductId)
    requires BarcodesUnique(store) && k in store
    ensures FindByBarcode(store, store[k].barcode) == Some(k)
  {
  }

  // ---------------------------------------------------------------------
  // Administration endpoints

  /** The body of a create or update request. */
  datatype ProductInput = ProductInput(
    barcode: string,
    name: string,
    category: string,
    price: Cents,
    stock: int,
    reorderLevel: int,
    isActive: bool)

  /** Why a create request was refused with 400 Bad Request. */
  datatype InputProblem = MissingBarcodeOrName | NegativePrice | NegativeStock

  /** The HTTP answer: 201, 204, 400, 409, 404, or the 500 of a replace
      that modified nothing. */
  datatype AdminResult =
    | Created(id: ProductId)
    | NoContent
    | BadRequest(problem: InputProblem)
    | Conflict
    | NotFound
    | UpdateFailed

  /** The collection after the request, and the HTTP answer. */
  datatype AdminOutcome = AdminOutcome(store: Store, result: AdminResult)

  /** The text of the response body: an error text for 400, 409 and 500,
      and no body for 201, 204 and 404. */
  function Message(r: AdminResult): (m: string)
    ensures m == "" <==> r.Created? || r.NoContent? || r.NotFound?
  {
    match r
    case BadRequest(MissingBarcodeOrName) => "Barcode and Name are required."
    case BadRequest(NegativePrice) => "Price cannot be negative."
    case BadRequest(NegativeStock) => "Stock cannot be negative."
    case Conflict => "Barcode already exists."
    case UpdateFailed => "Update failed"
    case _ => ""
  }

  /** The document a successful create inserts: the text fields trimmed,
      so a non-blank barcode and name stay non-blank. */
  function NewProduct(dto: ProductInput, now: Instant): (p: Product)
    ensures p.barcode == Trim(dto.barcode)
    ensures p.name == Trim(dto.name)
    ensures p.category == Trim(dto.category)
    ensures !IsBlank(dto.barcode) ==> !IsBlank(p.barcode)
    ensures !IsBlank(dto.name) ==> !IsBlank(p.name)
    ensures p.price == dto.price && p.stock == dto.stock && p.reorderLevel == dto.reorderLevel
    ensures p.isActive == dto.isActive && p.createdAt == p.updatedAt == now
  {
    TrimKeepsBlankness(dto.barcode);
    TrimKeepsBlankness(dto.name);
    Product(Trim(dto.barcode), Trim(dto.name), Trim(dto.category), dto.price, dto.stock,
            dto.reorderLevel, dto.isActive, now, now)
  }

  /** The validation of a create request, first failure first: both text
      fields present, then the price, then the stock. */
  function CreateProblem(dto: ProductInput): (r: Option<InputProblem>)
    ensures r == Some(MissingBarcodeOrName) <==> IsBlank(dto.barcode) || IsBlank(dto.name)
    ensures r == Some(NegativePrice) <==> !IsBlank(dto.barcode) && !IsBlank(dto.name) && dto.price < 0
    ensures r == Some(NegativeStock)
            <==> !IsBlank(dto.barcode) && !IsBlank(dto.name) && dto.price >= 0 && dto.stock < 0
    ensures r == None <==> !IsBlank(dto.barcode) && !IsBlank(dto.name) && dto.price >= 0 && dto.stock >= 0
  {
    if IsBlank(dto.barcode) || IsBlank(dto.name) then Some(MissingBarcodeOrName)
    else if dto.price < 0 then Some(NegativePrice)
    else if dto.stock < 0 then Some(NegativeStock)
    else None
  }

  /** `ProductsController.Create`. `newId` is the identifier the database
      assigns to the inserted document. A refused request leaves the
      collection as it was; an accepted one adds exactly one product, with a
      non-blank trimmed barcode and name and a non-negative price and stock. */
  function Create(store: Store, dto: ProductInput, newId: ProductId, now: Instant): (o: AdminOutcome)
    requires newId !in store
    ensures CreateProblem(dto).Some? ==> o.result == BadRequest(CreateProblem(dto).value)
    ensures o.result == Conflict
            <==> CreateProblem(dto).None? && exists k | k in store :: store[k].barcode == dto.barcode
    ensures o.result.BadRequest? || o.result == Conflict || o.result == Created(newId)
    ensures o.result == Created(newId)
            <==> CreateProblem(dto).None? && forall k | k in store :: store[k].barcode != dto.barcode
    ensures !o.result.Created? ==> o.store == store
    ensures o.result.Created? ==>
              && o.store.Keys == store.Keys + {newId}
              && (forall k | k in store :: o.store[k] == store[k])
              && o.store[newId] == NewProduct(dto, now)
              && !IsBlank(o.store[newId].barcode) && !IsBlank(o.store[newId].name)
              && o.store[newId].price >= 0 && o.store[newId].stock >= 0
  {
    var problem := CreateProblem(dto);
    if problem.Some? then AdminOutcome(store, BadRequest(problem.value))
    else if FindByBarcode(store, dto.barcode).Some? then AdminOutcome(store, Conflict)
    else AdminOutcome(store[newId := NewProduct(dto, now)], Created(newId))
  }

  /** The document an update writes: every editable field taken from the
      request, the text fields trimmed, the creation time kept and the
      modification time set to `now`. */
  function Overwrite(existing: Product, dto: ProductInput, now: Instant): (p: Product)
    ensures p.barcode == Trim(dto.barcode) && p.name == Trim(dto.name)
    ensures p.category == Trim(dto.category) && p.price == dto.price
    ensures p.stock == dto.stock && p.reorderLevel == dto.reorderLevel
    ensures p.isActive == dto.isActive
    ensures p.createdAt == existing.createdAt && p.updatedAt == now
  {
    existing.(
      barcode := Trim(dto.barcode), name := Trim(dto.name), category := Trim(dto.category),
      price := dto.price, stock := dto.stock, reorderLevel := dto.reorderLevel,
      isActive := dto.isActive, updatedAt := now)
  }

  /** `ProductsController.Update`: overwrite the editable fields of product
      `id`. The uniqueness check runs only when the new barcode differs from
      the stored one ignoring case; no field is checked for negativity. */
  function Update(store: Store, id: ProductId, dto: ProductInput, now: Instant): (o: AdminOutcome)
    ensures o.result == NotFound <==> id !in store
    ensures o.result == Conflict
            <==> && id in store && !EqualsIgnoreCase(store[id].barcode, dto.barcode)
                 && exists k | k in store :: store[k].barcode == dto.barcode
    ensures o.result == NotFound || o.result == Conflict || o.result == UpdateFailed
            || o.result == NoContent
    ensures o.result != NoContent ==> o.store == store
    ensures o.result == NoContent ==>
              && id in store
              && o.store.Keys == store.Keys
              && (forall k | k in store && k != id :: o.store[k] == store[k])
              && o.store[id] == Overwrite(store[id], dto, now) != store[id]
    ensures o.result == UpdateFailed ==> id in store && Overwrite(store[id], dto, now) == store[id]
  {
    if id !in store then AdminOutcome(store, NotFound)
    else
      var existing := store[id];
      if !EqualsIgnoreCase(existing.barcode, dto.barcode) && FindByBarcode(store, dto.barcode).Some?
      then AdminOutcome(store, Conflict)
      else
        var updated := Overwrite(existing, dto, now);
        // The replace reports no modified document when nothing changed.
        if updated == existing then AdminOutcome(store, UpdateFailed)
        else AdminOutcome(store[id := updated], NoContent)
  }

  /** `ProductsController.Delete`. */
  function Delete(store: Store, id: ProductId): (o: AdminOutcome)
    ensures o.result == NotFound <==> id !in store
    ensures o.result == NotFound || o.result == NoContent
    ensures o.result == NotFound ==> o.store == store
    ensures o.result == NoContent ==>
              && o.store.Keys == store.Keys - {id}
              && forall k | k in o.store :: o.store[k] == store[k]
  {
    if id !in store then AdminOutcome(store, NotFound)
    else AdminOutcome(store - {id}, NoContent)
  }

  /** An update keeping the barcode may set a negative price and a negative
      stock: the endpoint does not check them. */
  lemma UpdateAcceptsNegativeValues(store: Store, id: ProductId, dto: ProductInput, now: Instant)
    requires id in store && dto.barcode == store[id].barcode
    requires store[id].price >= 0
    requires dto.price < 0 && dto.stock < 0
    ensures Update(store, id, dto, now).result == NoContent
    ensures Update(store, id, dto, now).store[id].price < 0
    ensures Update(store, id, dto, now).store[id].stock < 0
  {
    assert EqualsIgnoreCase(store[id].barcode, dto.barcode);
  }

  /** Removing a product cannot break barcode uniqueness. */
  lemma DeletePreservesUniqueness(store: Store, id: ProductId)
    requires BarcodesUnique(store)
    ensures BarcodesUnique(Delete(store, id).store)
  {
  }

  // ---------------------------------------------------------------------
  // Duplicate barcodes: the endpoints as written, and corrected versions

  function SampleProduct(barcode: string): Product {
    Product(barcode, "Milk", "General", 250, 5, 10, true,
            DateTime(2026, 1, 16, 15, 30, 45), DateTime(2026, 1, 16, 15, 30, 45))
  }

  /** Create checks the untrimmed barcode but stores the trimmed one: with
      "123" in the catalog, a create for " 123" is accepted and the catalog
      then holds two products with barcode "123". */
  lemma CreateAllowsDuplicateBarcode()
    ensures var store := map[0 := SampleProduct("123")];
            var dto := ProductInput(" 123", "Milk", "General", 250, 5, 10, true);
            var o := Create(store, dto, 1, DateTime(2026, 1, 16, 15, 30, 45));
            && BarcodesUnique(store)
            && o.result == Created(1)
            && !BarcodesUnique(o.store)
  {
    var store := map[0 := SampleProduct("123")];
    var dto := ProductInput(" 123", "Milk", "General", 250, 5, 10, true);
    assert Trim(" 123") == "123" by {
      assert TrimStart(" 123") == "123";
      TrimOfTrimmed("123");
    }
    assert !IsBlank(" 123") by { assert !IsWhiteSpace(" 123"[1]); }
    assert !IsBlank("Milk") by { assert !IsWhiteSpace("Milk"[0]); }
    assert store[0].barcode != " 123";
    var o := Create(store, dto, 1, DateTime(2026, 1, 16, 15, 30, 45));
    assert o.store[0].barcode == o.store[1].barcode;
  }

  /** Update skips the uniqueness check when the new barcode equals the old
      one ignoring case: renaming "abc" to "ABC" while another product owns
      "ABC" succeeds and duplicates "ABC". */
  lemma UpdateAllowsDuplicateBarcode()
    ensures var store := map[0 := SampleProduct("abc"), 1 := SampleProduct("ABC")];
            var dto := ProductInput("ABC", "Milk", "General", 250, 5, 10, true);
            var o := Update(store, 0, dto, DateTime(2026, 1, 17, 9, 0, 0));
            && BarcodesUnique(store)
            && o.result == NoContent
            && !BarcodesUnique(o.store)
  {
    var store := map[0 := SampleProduct("abc"), 1 := SampleProduct("ABC")];
    var dto := ProductInput("ABC", "Milk", "General", 250, 5, 10, true);
    assert store[0].barcode != store[1].barcode by { assert "abc"[0] != "ABC"[0]; }
    assert EqualsIgnoreCase("abc", "ABC");
    TrimOfTrimmed("ABC");
    TrimOfTrimmed("Milk");
    TrimOfTrimmed("General");
    var o := Update(store, 0, dto, DateTime(2026, 1, 17, 9, 0, 0));
    assert o.store[0].barcode == o.store[1].barcode;
  }

  /** Adding a product whose barcode no product has keeps barcodes unique. */
  lemma InsertKeepsUnique(store: Store, id: ProductId, p: Product)
    requires BarcodesUnique(store)
    requires forall k | k in store && k != id :: store[k].barcode != p.barcode
    ensures BarcodesUnique(store[id := p])
  {
  }

  /** Create with the uniqueness check made against the barcode that is
      actually stored. */
  function CreateChecked(store: Store, dto: ProductInput, newId: ProductId, now: Instant): (o: AdminOutcome)
    requires newId !in store
    ensures BarcodesUnique(store) ==> BarcodesUnique(o.store)
    ensures CreateProblem(dto).Some? ==> o.result == BadRequest(CreateProblem(dto).value)
    ensures o.result == Conflict
            <==> CreateProblem(dto).None? && exists k | k in store :: store[k].barcode == Trim(dto.barcode)
    ensures o.result.BadRequest? || o.result == Conflict || o.result == Created(newId)
    ensures o.result == Created(newId)
            <==> CreateProblem(dto).None? && forall k | k in store :: store[k].barcode != Trim(dto.barcode)
    ensures !o.result.Created? ==> o.store == store
    ensures o.result.Created? ==> o.store == store[newId := NewProduct(dto, now)]
  {
    var problem := CreateProblem(dto);
    if problem.Some? then AdminOutcome(store, BadRequest(problem.value))
    else if FindByBarcode(store, Trim(dto.barcode)).Some? then AdminOutcome(store, Conflict)
    else
      var p := NewProduct(dto, now);
      assert BarcodesUnique(store) ==> BarcodesUnique(store[newId := p]) by {
        if BarcodesUnique(store) { InsertKeepsUnique(store, newId, p); }
      }
      AdminOutcome(store[newId := p], Created(newId))
  }

  /** Update with the uniqueness check made against the stored (trimmed)
      barcode, skipped only when no other product holds it. */
  function UpdateChecked(store: Store, id: ProductId, dto: ProductInput, now: Instant): (o: AdminOutcome)
    ensures BarcodesUnique(store) ==> BarcodesUnique(o.store)
    ensures o.result == NotFound <==> id !in store
    ensures o.result == Conflict
            <==> && id in store
                 && exists k | k in store && k != id :: store[k].barcode == Trim(dto.barcode)
    ensures o.result == NotFound || o.result == Conflict || o.result == UpdateFailed
            || o.result == NoContent
    ensures o.result != NoContent ==> o.store == store
    ensures o.result == NoContent ==>
              o.store == store[id := Overwrite(store[id], dto, now)] && Overwrite(store[id], dto, now) != store[id]
    ensures o.result == UpdateFailed ==> Overwrite(store[id], dto, now) == store[id]
  {
    if id !in store then AdminOutcome(store, NotFound)
    else if exists k | k in store && k != id :: store[k].barcode == Trim(dto.barcode)
    then AdminOutcome(store, Conflict)
    else
      var existing := store[id];
      var updated := Overwrite(existing, dto, now);
      assert BarcodesUnique(store) ==> BarcodesUnique(store[id := updated]) by {
        if BarcodesUnique(store) { InsertKeepsUnique(store, id, updated); }
      }
      if updated == existing then AdminOutcome(store, UpdateFailed)
      else AdminOutcome(store[id := updated], NoContent)
  }

  /** For a request whose barcode is already trimmed, as the catalog page
      sends it, the corrected create behaves exactly like the endpoint. */
  lemma CreateCheckedAgreesOnTrimmedInput(store: Store, dto: ProductInput, newId: ProductId, now: Instant)
    requires newId !in store && Trim(dto.barcode) == dto.barcode
    ensures CreateChecked(store, dto, newId, now) == Create(store, dto, newId, now)
  {
  }
}
