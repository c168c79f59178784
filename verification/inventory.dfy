/** The inventory screen: its summary figures, the product form, deletion,
    the stock-entry form and the search filter. */
module Inventory {
  import opened Types
  import opened Seqs
  import opened Text
  import opened Stock

  predicate IsLow(p: Product)
  {
    p.stock <= p.minStock
  }

  /** Products at or below their minimum stock. */
  function LowStockCount(products: seq<Product>): (r: nat)
    ensures r == MaskedSum(products, IsLow, One)
    ensures r <= |products|
    ensures r == 0 <==> forall i :: 0 <= i < |products| ==> !IsLow(products[i])
    ensures r == |products| <==> forall i :: 0 <= i < |products| ==> IsLow(products[i])
  {
    FilterMembers(products, IsLow);
    FilterLengthIsCount(products, IsLow);
    CountBounds(products, IsLow);
    |Filter(products, IsLow)|
  }

  /** A count of matches is zero exactly when nothing matches and full
      exactly when everything does. */
  lemma {:induction false} CountBounds<T>(s: seq<T>, p: T -> bool)
    ensures 0 <= MaskedSum(s, p, One) <= |s|
    ensures MaskedSum(s, p, One) == 0 <==> forall i :: 0 <= i < |s| ==> !p(s[i])
    ensures MaskedSum(s, p, One) == |s| <==> forall i :: 0 <= i < |s| ==> p(s[i])
  {
    if s != [] {
      var init := s[..|s| - 1];
      CountBounds(init, p);
      assert forall i :: 0 <= i < |init| ==> init[i] == s[i];
    }
  }

  function StockOf(p: Product): int
  {
    p.stock
  }

  /** Units in stock over all products. */
  function TotalUnits(products: seq<Product>): (r: int)
    ensures (forall i :: 0 <= i < |products| ==> products[i].stock >= 0) ==> r >= 0
  {
    assert (forall i :: 0 <= i < |products| ==> products[i].stock >= 0) ==> Sum(products, StockOf) >= 0 by {
      if forall i :: 0 <= i < |products| ==> products[i].stock >= 0 {
        SumNonNegative(products, StockOf);
      }
    }
    Sum(products, StockOf)
  }

  /** With distinct identifiers, a stock entry of a listed product raises
      the units in stock by exactly the quantity entered. */
  lemma StockEntryRaisesUnits(products: seq<Product>, id: string, quantity: int)
    requires UniqueProductIds(products)
    ensures TotalUnits(Restocked(products, id, quantity)) ==
      TotalUnits(products) + (if FindProduct(products, id).Some? then quantity else 0)
  {
    match FindProduct(products, id)
    case None =>
      assert Restocked(products, id, quantity) == products;
    case Some(k) =>
      var r := Restocked(products, id, quantity);
      assert r == products[k := products[k].(stock := products[k].stock + quantity)];
      SumUpdate(products, k, r[k], StockOf);
  }

  /** The product form; an absent sell price stands for an empty or
      non-numeric field. */
  datatype ProductForm = ProductForm(name: string, category: string, costPrice: int,
                                     sellPrice: Option<int>, stock: int, minStock: int)

  function FromForm(form: ProductForm, id: string): Product
    requires form.sellPrice.Some?
  {
    Product(id, form.name, form.category, form.costPrice, form.sellPrice.value, form.stock, form.minStock)
  }

  predicate FormAccepted(form: ProductForm)
  {
    form.name != [] && form.sellPrice.Some? && form.sellPrice.value != 0
  }

  /** `handleSave`: rejected without a name or with a missing or zero sell
      price. Editing gives every product with the edited identifier the
      form's fields and keeps its identifier; creating appends one product
      under the new identifier. */
  function Saved(products: seq<Product>, form: ProductForm, editing: Option<string>, newId: string): (r: Option<seq<Product>>)
    ensures r.None? <==> !FormAccepted(form)
    ensures r.Some? && editing.Some? ==>
      |r.value| == |products| &&
      forall k :: 0 <= k < |products| ==>
        r.value[k].id == products[k].id &&
        (products[k].id != editing.value ==> r.value[k] == products[k]) &&
        (products[k].id == editing.value ==> r.value[k] == FromForm(form, products[k].id))
    ensures r.Some? && editing.None? ==>
      |r.value| == |products| + 1 && r.value[..|products|] == products &&
      r.value[|products|] == FromForm(form, newId) && r.value[|products|].id == newId
  {
    if !FormAccepted(form) then None
    else match editing
      case Some(id) =>
        Some(seq(|products|, k requires 0 <= k < |products| =>
          if products[k].id == id then FromForm(form, products[k].id) else products[k]))
      case None =>
        Some(products + [FromForm(form, newId)])
  }

  /** Saving keeps identifiers distinct when a new product gets an
      identifier no listed product has. */
  lemma SaveKeepsIdsUnique(products: seq<Product>, form: ProductForm, editing: Option<string>, newId: string)
    requires UniqueProductIds(products) && FindProduct(products, newId).None?
    ensures var r := Saved(products, form, editing, newId);
      r.Some? ==> UniqueProductIds(r.value)
  {
  }

  function NotId(id: string): Product -> bool
  {
    (p: Product) => p.id != id
  }

  /** `handleDelete`: the products with other identifiers, in order. */
  function Deleted(products: seq<Product>, id: string): (r: seq<Product>)
    ensures forall p | p in r :: p in products && p.id != id
    ensures forall p | p in products && p.id != id :: p in r
  {
    FilterMembers(products, NotId(id));
    Filter(products, NotId(id))
  }

  /** With distinct identifiers, deleting removes exactly the one product
      found and keeps the rest in order; the units in stock fall by its
      stock. */
  lemma DeleteRemovesOne(products: seq<Product>, id: string)
    requires UniqueProductIds(products)
    ensures match FindProduct(products, id)
      case None => Deleted(products, id) == products
      case Some(k) =>
        Deleted(products, id) == products[..k] + products[k + 1..] &&
        TotalUnits(Deleted(products, id)) == TotalUnits(products) - products[k].stock
  {
    match FindProduct(products, id)
    case None =>
      FilterKeepsAll(products, NotId(id));
    case Some(k) =>
      FilterDropsOne(products, k, NotId(id));
      var a, b := products[..k], products[k + 1..];
      assert products == a + [products[k]] + b;
      SumAppend(a, b, StockOf);
      SumAppend(a + [products[k]], b, StockOf);
      SumAppend(a, [products[k]], StockOf);
      assert Sum([products[k]], StockOf) == products[k].stock by { assert [products[k]][..0] == []; }
  }

  datatype StockRequest = StockRequest(productId: string, quantity: int, mode: EntryMode, costTotal: int)

  /** `handleSubmitStock`: a product must be chosen and the quantity must
      be a whole number above zero; a purchase needs a numeric cost, a
      production passes cost zero. An absent quantity or cost stands for
      an empty or non-numeric field. */
  function StockSubmission(product: Option<Product>, quantity: Option<int>, mode: EntryMode,
                           cost: Option<int>): (r: Option<StockRequest>)
    ensures r.Some? <==>
      product.Some? && quantity.Some? && quantity.value > 0 && (mode == Buy ==> cost.Some?)
    ensures r.Some? ==>
      r.value.productId == product.value.id && r.value.quantity == quantity.value && r.value.quantity > 0 &&
      r.value.mode == mode && r.value.costTotal == (if mode == Buy then cost.value else 0)
  {
    if product.None? || quantity.None? then None
    else if quantity.value <= 0 then None
    else if mode == Buy && cost.None? then None
    else Some(StockRequest(product.value.id, quantity.value, mode, if mode == Buy then cost.value else 0))
  }

  predicate MatchesTerm(p: Product, term: string)
  {
    ContainsIgnoringCase(p.name, term) || ContainsIgnoringCase(p.category, term)
  }

  function Searching(term: string): Product -> bool
  {
    (p: Product) => MatchesTerm(p, term)
  }

  /** The listed products: those whose name or category contains the
      search term, ignoring case, in their order. */
  function Search(products: seq<Product>, term: string): (r: seq<Product>)
    ensures forall p | p in r :: p in products && MatchesTerm(p, term)
    ensures forall p | p in products && MatchesTerm(p, term) :: p in r
  {
    FilterMembers(products, Searching(term));
    Filter(products, Searching(term))
  }

  /** The listed products keep the catalogue's order: a product added at
      the end is listed after the earlier ones, if it matches. */
  lemma SearchInOrder(products: seq<Product>, p: Product, term: string)
    ensures Search(products + [p], term) ==
      Search(products, term) + (if MatchesTerm(p, term) then [p] else [])
  {
    FilterAppend(products, [p], Searching(term));
    FilterSingleton(p, Searching(term));
  }

  /** The empty search term lists every product. */
  lemma EmptySearchListsAll(products: seq<Product>)
    ensures Search(products, "") == products
  {
    forall i | 0 <= i < |products| ensures Searching("")(products[i]) {
      assert OccursAt(Lower(products[i].name), Lower(""), 0);
    }
    FilterKeepsAll(products, Searching(""));
  }
}
