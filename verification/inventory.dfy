/** The product catalogue screen (components/Inventory.tsx): the search and
    category filter, the health status of each row, the administrator-only
    delete, and the create/update form. */
module Inventory {
  import opened Types
  import opened Seqs
  import opened Text
  import opened Ledger
  import opened App
  import opened Transactions

  /** The one capability rule of the console: only an administrator may
      delete a product (components/Inventory.tsx:68). */
  predicate MayDelete(u: User)
  {
    u.role == Admin
  }

  /** How a delete request ends: refused for the role, no such product, the
      confirmation dialog answered "cancel", or the product removed. */
  datatype DeleteOutcome = Denied | NotFound | Cancelled | Removed

  datatype DeleteReply = DeleteReply(state: AppState, outcome: DeleteOutcome)

  /** The catalogue without the products carrying `id`. */
  function RemoveProduct(ps: seq<Product>, id: string): (r: seq<Product>)
    ensures forall p :: p in r <==> p in ps && p.id != id
    ensures (forall i :: 0 <= i < |ps| ==> ps[i].id != id) <==> r == ps
  {
    var keep := (p: Product) => p.id != id;
    FilterKeepsAll(keep, ps);
    Filter(keep, ps)
  }

  /** Removal works element by element and keeps the survivors in order: it
      distributes over concatenation, and a single product stays exactly when
      its id differs. */
  lemma RemoveKeepsOrder(a: seq<Product>, b: seq<Product>, id: string, p: Product)
    ensures RemoveProduct(a + b, id) == RemoveProduct(a, id) + RemoveProduct(b, id)
    ensures RemoveProduct([p], id) == if p.id == id then [] else [p]
  {
    var keep := (x: Product) => x.id != id;
    FilterConcat(keep, a, b);
    assert [p][1..] == [];
  }

  lemma RemoveShrinks(ps: seq<Product>, id: string, kept: seq<Product>)
    requires kept == RemoveProduct(ps, id)
    requires exists i :: 0 <= i < |ps| && ps[i].id == id
    ensures |kept| < |ps|
  {
    var i :| 0 <= i < |ps| && ps[i].id == id;
    assert ps[i] !in kept;
    assert multiset(kept) <= multiset(ps);
    assert multiset(kept) != multiset(ps) by {
      assert ps[i] in multiset(ps);
      assert ps[i] !in multiset(kept);
    }
    assert |multiset(kept)| < |multiset(ps)| by {
      var d := multiset(ps) - multiset(kept);
      assert multiset(ps) == multiset(kept) + d;
      assert ps[i] in d;
    }
  }

  /** `handleDelete(id)` with the answer of the confirmation dialog as
      `confirmed`. Nothing changes unless an administrator confirms the removal
      of an existing product; then every product with that id goes, the
      history keeps its references to it, and one audit entry is written. */
  function DeleteProduct(s: AppState, id: string, confirmed: bool, logId: string, now: int): (r: DeleteReply)
    ensures r.outcome == Denied <==> !MayDelete(s.currentUser)
    ensures r.outcome == NotFound <==>
      MayDelete(s.currentUser) && forall i :: 0 <= i < |s.products| ==> s.products[i].id != id
    ensures r.outcome == Cancelled <==>
      MayDelete(s.currentUser) && (exists i :: 0 <= i < |s.products| && s.products[i].id == id) && !confirmed
    ensures r.outcome == Removed <==>
      MayDelete(s.currentUser) && (exists i :: 0 <= i < |s.products| && s.products[i].id == id) && confirmed
    ensures r.outcome != Removed ==> r.state == s
    ensures r.outcome == Removed ==>
      && r.state.products == RemoveProduct(s.products, id)
      && (forall p :: p in r.state.products <==> p in s.products && p.id != id)
      && |r.state.products| < |s.products|
      && r.state.transactions == s.transactions
      && r.state.(products := s.products, logs := s.logs) == s
      && LoggedOnce(s, r.state, logId, now, "DELETE_PRODUCT")
      && FindProduct(s.products, id).Some?
      && var p := FindProduct(s.products, id).value;
         r.state.logs[0].details == "Admin permanently removed product " + p.name + " (SKU: " + p.sku + ")"
  {
    if !MayDelete(s.currentUser) then DeleteReply(s, Denied)
    else match FindProduct(s.products, id)
      case None => DeleteReply(s, NotFound)
      case Some(p) =>
        if !confirmed then DeleteReply(s, Cancelled)
        else
          var kept := RemoveProduct(s.products, id);
          RemoveShrinks(s.products, id, kept);
          var details := "Admin permanently removed product " + p.name + " (SKU: " + p.sku + ")";
          var r := AddLog(s.(products := kept), logId, now, "DELETE_PRODUCT", details);
          assert r.(products := s.products, logs := s.logs) == s;
          DeleteReply(r, Removed)
  }

  /** After a confirmed delete no product answers to the id any more, so every
      transaction that referred to it is shown as "Deleted Asset". */
  lemma DeleteLeavesDanglingHistory(s: AppState, id: string, confirmed: bool, logId: string, now: int, t: Transaction)
    requires DeleteProduct(s, id, confirmed, logId, now).outcome == Removed
    requires t in s.transactions && t.productId == id
    ensures t in DeleteProduct(s, id, confirmed, logId, now).state.transactions
    ensures AssetLabel(DeleteProduct(s, id, confirmed, logId, now).state.products, t) == "Deleted Asset"
  {
    var ps := DeleteProduct(s, id, confirmed, logId, now).state.products;
    forall i | 0 <= i < |ps| ensures ps[i].id != id {
      assert ps[i] in ps;
    }
  }

  /** The fields the product form submits. */
  datatype ProductForm = ProductForm(
    name: string,
    sku: string,
    categoryId: string,
    quantity: int,
    reorderLevel: int,
    price: real,
    cost: real)

  /** `q` is `p` edited through form `f` at time `now`: the form's fields are
      replaced, identity, supplier, unit, batch and expiry are kept. */
  predicate EditedFrom(q: Product, p: Product, f: ProductForm, now: int)
  {
    && q.name == f.name && q.sku == f.sku && q.categoryId == f.categoryId
    && q.quantity == f.quantity && q.reorderLevel == f.reorderLevel
    && q.price == f.price && q.cost == f.cost && q.lastUpdated == now
    && q.id == p.id && q.supplierId == p.supplierId && q.unit == p.unit
    && q.batchNumber == p.batchNumber && q.expiryDate == p.expiryDate
  }

  /** `handleSubmit` while editing the product with id `editId`. The audit entry
      is written even when no product has that id. */
  function UpdateProduct(s: AppState, editId: string, f: ProductForm, now: int, logId: string): (r: AppState)
    ensures |r.products| == |s.products|
    ensures forall i :: 0 <= i < |s.products| && s.products[i].id != editId ==> r.products[i] == s.products[i]
    ensures forall i :: 0 <= i < |s.products| && s.products[i].id == editId ==>
      EditedFrom(r.products[i], s.products[i], f, now)
    ensures r.(products := s.products, logs := s.logs) == s
    ensures LoggedOnce(s, r, logId, now, "UPDATE_PRODUCT")
    ensures r.logs[0].details == "Updated product details for " + f.name + " (" + f.sku + ")"
  {
    var ps := s.products;
    var edited := seq(|ps|, i requires 0 <= i < |ps| =>
      if ps[i].id == editId
      then ps[i].(name := f.name, sku := f.sku, categoryId := f.categoryId, quantity := f.quantity,
                  reorderLevel := f.reorderLevel, price := f.price, cost := f.cost, lastUpdated := now)
      else ps[i]);
    AddLog(s.(products := edited), logId, now, "UPDATE_PRODUCT", "Updated product details for " + f.name + " (" + f.sku + ")")
  }

  /** The supplier a new product is given: the first supplier's id, falling
      back to "s1" when there is no supplier or its id is empty (JavaScript
      treats the empty string as missing). */
  function DefaultSupplierId(sups: seq<Supplier>): string
  {
    if |sups| > 0 && sups[0].id != "" then sups[0].id else "s1"
  }

  /** A new product's batch number: "B-", the current year, "-", and a random
      whole number below 1000. The year and the draw are supplied by the
      caller. */
  function BatchNumber(year: nat, draw: nat): string
  {
    "B-" + NatToString(year) + "-" + NatToString(draw)
  }

  /** `handleSubmit` for a new product: it is appended after all existing ones
      with the form's fields, the default supplier, unit "pcs", a generated
      batch number and no expiry date. */
  function CreateProduct(s: AppState, f: ProductForm, newId: string, year: nat, draw: nat, now: int, logId: string): (r: AppState)
    requires draw < 1000
    ensures |r.products| == |s.products| + 1
    ensures r.products[..|s.products|] == s.products
    ensures var p := r.products[|s.products|];
      && p.id == newId && p.name == f.name && p.sku == f.sku && p.categoryId == f.categoryId
      && p.quantity == f.quantity && p.reorderLevel == f.reorderLevel && p.price == f.price && p.cost == f.cost
      && p.unit == "pcs" && p.expiryDate == None && p.lastUpdated == now
      && p.batchNumber == BatchNumber(year, draw)
      && (|s.suppliers| > 0 && s.suppliers[0].id != "" ==> p.supplierId == s.suppliers[0].id)
      && (|s.suppliers| == 0 || s.suppliers[0].id == "" ==> p.supplierId == "s1")
    ensures r.(products := s.products, logs := s.logs) == s
    ensures LoggedOnce(s, r, logId, now, "CREATE_PRODUCT")
    ensures r.logs[0].details == "Added new product " + f.name + " to inventory"
  {
    var p := Product(newId, f.sku, f.name, f.categoryId, DefaultSupplierId(s.suppliers), f.price, f.cost,
                     f.quantity, f.reorderLevel, "pcs", BatchNumber(year, draw), None, now);
    AddLog(s.(products := s.products + [p]), logId, now, "CREATE_PRODUCT", "Added new product " + f.name + " to inventory")
  }

  /** Creating a product raises the low-stock count by one exactly when the new
      product is itself low. */
  lemma CreateUpdatesLowStockCount(s: AppState, f: ProductForm, newId: string, year: nat, draw: nat, now: int, logId: string)
    requires draw < 1000
    ensures LowStockCount(CreateProduct(s, f, newId, year, draw, now, logId).products) ==
      LowStockCount(s.products) + (if f.quantity <= f.reorderLevel then 1 else 0)
  {
    var r := CreateProduct(s, f, newId, year, draw, now, logId);
    var p := r.products[|s.products|];
    assert r.products == s.products + [p];
    FilterConcat(IsLowStock, s.products, [p]);
    assert [p][1..] == [];
  }

  /** A product row passes the catalogue filter when its name or SKU contains
      the search term, ignoring case, and it belongs to the chosen category
      (or "all" is chosen). */
  predicate ProductMatches(p: Product, search: string, categoryFilter: string)
  {
    && (IncludesIgnoringCase(p.name, search) || IncludesIgnoringCase(p.sku, search))
    && (categoryFilter == "all" || p.categoryId == categoryFilter)
  }

  /** `filteredProducts`: the rows passing the filter, in catalogue order. */
  function FilteredProducts(ps: seq<Product>, searchTerm: string, externalSearch: string, categoryFilter: string): (r: seq<Product>)
    ensures |r| <= |ps|
    ensures forall p :: p in r <==> p in ps && ProductMatches(p, OrElse(searchTerm, externalSearch), categoryFilter)
    ensures forall p :: multiset(r)[p] ==
                if ProductMatches(p, OrElse(searchTerm, externalSearch), categoryFilter) then multiset(ps)[p] else 0
  {
    var search := OrElse(searchTerm, externalSearch);
    FilterCount((p: Product) => ProductMatches(p, search, categoryFilter), ps);
    Filter((p: Product) => ProductMatches(p, search, categoryFilter), ps)
  }

  /** The filter decides row by row and keeps the rows in catalogue order: it
      distributes over concatenation, and a single row stays or goes by
      itself. */
  lemma FilteredProductsKeepOrder(a: seq<Product>, b: seq<Product>, p: Product,
                                  searchTerm: string, externalSearch: string, categoryFilter: string)
    ensures FilteredProducts(a + b, searchTerm, externalSearch, categoryFilter) ==
      FilteredProducts(a, searchTerm, externalSearch, categoryFilter) + FilteredProducts(b, searchTerm, externalSearch, categoryFilter)
    ensures FilteredProducts([p], searchTerm, externalSearch, categoryFilter) ==
      if ProductMatches(p, OrElse(searchTerm, externalSearch), categoryFilter) then [p] else []
  {
    var search := OrElse(searchTerm, externalSearch);
    var pass := (x: Product) => ProductMatches(x, search, categoryFilter);
    FilterConcat(pass, a, b);
    assert [p][1..] == [];
  }

  /** With empty search boxes and "all" groups the whole catalogue is shown,
      in order. */
  lemma NoFilterShowsAll(ps: seq<Product>)
    ensures FilteredProducts(ps, "", "", "all") == ps
  {
    var pass := (p: Product) => ProductMatches(p, "", "all");
    forall i | 0 <= i < |ps| ensures pass(ps[i]) {
      EmptySearchMatches(ps[i].name);
    }
    FilterKeepsAll(pass, ps);
  }

  /** The health status shown for each catalogue row. */
  datatype StockStatus = OutOfStock | ReorderRequired | StableSupply

  /** "Out of Stock" exactly at zero; otherwise "Reorder Required" exactly when
      low on stock (the boundary is inclusive); otherwise "Stable Supply". A
      row needs attention exactly when it is empty or low; a negative stock,
      which outbound movements can produce, reads as "Reorder Required"
      whenever the reorder level is not negative. */
  function Status(p: Product): (r: StockStatus)
    ensures r == OutOfStock <==> p.quantity == 0
    ensures r == ReorderRequired <==> p.quantity != 0 && p.quantity <= p.reorderLevel
    ensures r == StableSupply <==> p.quantity != 0 && p.quantity > p.reorderLevel
    ensures r != StableSupply <==> p.quantity == 0 || IsLowStock(p)
    ensures p.quantity < 0 && p.reorderLevel >= 0 ==> r == ReorderRequired
  {
    if p.quantity == 0 then OutOfStock
    else if IsLowStock(p) then ReorderRequired
    else StableSupply
  }
}
