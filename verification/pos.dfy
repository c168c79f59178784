/** The point-of-sale screen: the catalogue, the cart with its operations,
    the total and change, and checkout, which builds the SALE record and the
    product list with the sold units taken out. */
module Pos {
  import opened Types
  import opened Seqs
  import opened Text
  import opened Money

  datatype CartEntry = CartEntry(product: Product, quantity: int)

  /** Index of the first cart line for product `id`. */
  function FindEntry(entries: seq<CartEntry>, id: string): (r: Option<nat>)
    ensures r.None? <==> forall i :: 0 <= i < |entries| ==> entries[i].product.id != id
    ensures r.Some? ==> r.value < |entries| && entries[r.value].product.id == id
                        && forall j :: 0 <= j < r.value ==> entries[j].product.id != id
  {
    if entries == [] then None
    else if entries[0].product.id == id then Some(0)
    else match FindEntry(entries[1..], id)
      case None => None
      case Some(k) => Some(k + 1)
  }

  /** Units of product `id` in the cart. */
  function CartQuantity(entries: seq<CartEntry>, id: string): int
  {
    match FindEntry(entries, id)
    case None => 0
    case Some(k) => entries[k].quantity
  }

  ghost predicate UniqueLines(entries: seq<CartEntry>)
  {
    forall i, j :: 0 <= i < j < |entries| ==> entries[i].product.id != entries[j].product.id
  }

  /** One line per product, each with a quantity between 1 and the stock
      of the product as the line recorded it. */
  ghost predicate CartInvariant(entries: seq<CartEntry>)
  {
    UniqueLines(entries) &&
    forall i :: 0 <= i < |entries| ==> 1 <= entries[i].quantity <= entries[i].product.stock
  }

  /** The line recorded for `product`, if any, shows the same stock. */
  ghost predicate SnapshotAgrees(entries: seq<CartEntry>, product: Product)
  {
    forall i :: 0 <= i < |entries| && entries[i].product.id == product.id ==> entries[i].product == product
  }

  predicate MatchesSearch(p: Product, term: string)
  {
    ContainsIgnoringCase(p.name, term) && p.stock > 0
  }

  function Searching(term: string): Product -> bool
  {
    p => MatchesSearch(p, term)
  }

  /** The products in stock whose name contains the search term ignoring
      case (`filteredProducts`). */
  function Matching(products: seq<Product>, term: string): (r: seq<Product>)
    ensures forall p | p in r :: p in products && MatchesSearch(p, term)
    ensures forall p | p in products && MatchesSearch(p, term) :: p in r
  {
    FilterMembers(products, Searching(term));
    Filter(products, Searching(term))
  }

  /** The matches keep the catalogue's order: a product added at the end
      of the list is listed after the earlier matches, if it matches. */
  lemma MatchingInOrder(products: seq<Product>, p: Product, term: string)
    ensures Matching(products + [p], term) ==
      Matching(products, term) + (if MatchesSearch(p, term) then [p] else [])
  {
    FilterAppend(products, [p], Searching(term));
    FilterSingleton(p, Searching(term));
  }

  /** The products offered for sale: all the matches when all are shown,
      otherwise the first four of them (`slice(0, 4)`). */
  function Catalogue(products: seq<Product>, term: string, showAll: bool): (r: seq<Product>)
    ensures forall p | p in r :: p in products && p.stock > 0 && ContainsIgnoringCase(p.name, term)
    ensures showAll ==> r == Matching(products, term)
    ensures !showAll ==>
      |r| == (if |Matching(products, term)| < 4 then |Matching(products, term)| else 4) &&
      r == Matching(products, term)[..|r|]
  {
    var filtered := Matching(products, term);
    if showAll then filtered
    else filtered[..if |filtered| < 4 then |filtered| else 4]
  }

  /** Every line of product `id` moved by `delta` units. */
  function Bumped(entries: seq<CartEntry>, id: string, delta: int): (r: seq<CartEntry>)
    ensures |r| == |entries|
  {
    seq(|entries|, i requires 0 <= i < |entries| =>
      if entries[i].product.id == id then entries[i].(quantity := entries[i].quantity + delta) else entries[i])
  }

  /** `addToCart`: a product not in the cart enters with one unit; a
      product already there gains one unit while below the given stock. */
  function AddedToCart(entries: seq<CartEntry>, product: Product): (r: seq<CartEntry>)
    ensures |r| == |entries| + (if FindEntry(entries, product.id).None? then 1 else 0)
    ensures FindEntry(entries, product.id).None? ==> r[|entries|] == CartEntry(product, 1)
    ensures forall i :: 0 <= i < |entries| ==>
      r[i].product == entries[i].product && (entries[i].product.id != product.id ==> r[i] == entries[i])
  {
    match FindEntry(entries, product.id)
    case None => entries + [CartEntry(product, 1)]
    case Some(k) => if entries[k].quantity < product.stock then Bumped(entries, product.id, 1) else entries
  }

  /** `updateQuantity`: lines of product `id` move by `delta` only if the new
      quantity stays between 1 and the line's stock. */
  function UpdatedQuantity(entries: seq<CartEntry>, id: string, delta: int): (r: seq<CartEntry>)
    ensures |r| == |entries|
    ensures forall i :: 0 <= i < |entries| ==>
      r[i].product == entries[i].product && (entries[i].product.id != id ==> r[i] == entries[i])
    ensures forall i :: 0 <= i < |entries| && r[i] != entries[i] ==>
      r[i].quantity == entries[i].quantity + delta && 1 <= r[i].quantity <= r[i].product.stock
  {
    seq(|entries|, i requires 0 <= i < |entries| =>
      if entries[i].product.id == id && 0 < entries[i].quantity + delta <= entries[i].product.stock
      then entries[i].(quantity := entries[i].quantity + delta)
      else entries[i])
  }

  predicate OtherProduct(id: string, e: CartEntry)
  {
    e.product.id != id
  }

  function NotProduct(id: string): CartEntry -> bool
  {
    e => OtherProduct(id, e)
  }

  /** `removeFromCart`: the lines of other products, in order. */
  function RemovedFromCart(entries: seq<CartEntry>, id: string): (r: seq<CartEntry>)
    ensures forall e :: e in r <==> e in entries && e.product.id != id
  {
    FilterMembers(entries, NotProduct(id));
    Filter(entries, NotProduct(id))
  }

  function LineTotal(e: CartEntry): Cents
  {
    Multiply(e.product.sellPrice, e.quantity)
  }

  /** No line has a negative price or quantity. */
  predicate NonNegativeLines(entries: seq<CartEntry>)
  {
    forall i :: 0 <= i < |entries| ==> entries[i].product.sellPrice >= 0 && entries[i].quantity >= 0
  }

  /** The cart total; never negative while prices and quantities are not. */
  function Total(entries: seq<CartEntry>): (r: Cents)
    ensures NonNegativeLines(entries) ==> r >= 0
  {
    assert NonNegativeLines(entries) ==> Sum(entries, LineTotal) >= 0 by {
      if NonNegativeLines(entries) {
        forall i | 0 <= i < |entries| ensures LineTotal(entries[i]) >= 0 {
          MultiplyNonNegative(entries[i].product.sellPrice, entries[i].quantity);
        }
        SumNonNegative(entries, LineTotal);
      }
    }
    Sum(entries, LineTotal)
  }

  /** With one line per product, moving product `id`'s lines touches the
      one line found for it. */
  lemma BumpedSingle(entries: seq<CartEntry>, id: string, delta: int, k: nat)
    requires UniqueLines(entries) && FindEntry(entries, id) == Some(k)
    ensures Bumped(entries, id, delta) == entries[k := entries[k].(quantity := entries[k].quantity + delta)]
  {
  }

  /** Replacing one line by another line of the same product with a
      quantity in range keeps the invariant and every lookup, and moves
      the total by the difference of the two line totals. */
  lemma {:induction false} ReplaceLine(entries: seq<CartEntry>, k: nat, e: CartEntry)
    requires CartInvariant(entries) && k < |entries|
    requires e.product == entries[k].product && 1 <= e.quantity <= e.product.stock
    ensures CartInvariant(entries[k := e])
    ensures forall id :: FindEntry(entries[k := e], id) == FindEntry(entries, id)
    ensures forall id ::
      CartQuantity(entries[k := e], id) == (if id == e.product.id then e.quantity else CartQuantity(entries, id))
    ensures Total(entries[k := e]) == Total(entries) - LineTotal(entries[k]) + LineTotal(e)
  {
    forall id ensures FindEntry(entries[k := e], id) == FindEntry(entries, id)
                   && CartQuantity(entries[k := e], id) == (if id == e.product.id then e.quantity else CartQuantity(entries, id)) {
      FindEntrySameIds(entries, entries[k := e], id);
      if id == e.product.id {
        assert FindEntry(entries, id) == Some(k);
      } else if FindEntry(entries, id).Some? {
        assert FindEntry(entries, id).value != k;
      }
    }
    SumUpdate(entries, k, e, LineTotal);
  }

  lemma AppendLineKeepsInvariant(entries: seq<CartEntry>, e: CartEntry)
    requires CartInvariant(entries) && FindEntry(entries, e.product.id).None?
    requires 1 <= e.quantity <= e.product.stock
    ensures CartInvariant(entries + [e])
  {
    var r := entries + [e];
    assert forall i :: 0 <= i < |entries| ==> r[i] == entries[i];
    assert r[|entries|] == e;
  }

  /** A line for a product not yet in the cart: its quantity is the line's,
      the others' are kept, and the total grows by its line total. */
  lemma AppendLine(entries: seq<CartEntry>, e: CartEntry)
    requires FindEntry(entries, e.product.id).None?
    ensures forall id ::
      CartQuantity(entries + [e], id) == (if id == e.product.id then e.quantity else CartQuantity(entries, id))
    ensures Total(entries + [e]) == Total(entries) + LineTotal(e)
  {
    SumAppend(entries, [e], LineTotal);
    SumSingleton(e, LineTotal);
    forall id ensures CartQuantity(entries + [e], id) == (if id == e.product.id then e.quantity else CartQuantity(entries, id)) {
      FindEntryAppend(entries, e, id);
    }
  }

  /** Adding to the cart keeps one line per product with quantities in
      range. */
  lemma AddToCartKeepsInvariant(entries: seq<CartEntry>, product: Product)
    requires CartInvariant(entries) && SnapshotAgrees(entries, product) && product.stock > 0
    ensures CartInvariant(AddedToCart(entries, product))
  {
    match FindEntry(entries, product.id)
    case None =>
      AppendLineKeepsInvariant(entries, CartEntry(product, 1));
    case Some(k) =>
      if entries[k].quantity < product.stock {
        BumpedSingle(entries, product.id, 1, k);
        ReplaceLine(entries, k, entries[k].(quantity := entries[k].quantity + 1));
      }
  }

  /** Adding to the cart adds one unit of the product, unless its line has
      reached the stock, and exactly that unit's price to the total; no
      other product's quantity changes. */
  lemma AddToCartEffect(entries: seq<CartEntry>, product: Product)
    requires CartInvariant(entries) && SnapshotAgrees(entries, product) && product.stock > 0
    ensures var r := AddedToCart(entries, product);
      var q := CartQuantity(entries, product.id);
      var added := q < product.stock;
      CartQuantity(r, product.id) == (if added then q + 1 else q) &&
      (forall id :: id != product.id ==> CartQuantity(r, id) == CartQuantity(entries, id)) &&
      Total(r) == Total(entries) + (if added then product.sellPrice else 0)
  {
    match FindEntry(entries, product.id)
    case None =>
      var e := CartEntry(product, 1);
      assert AddedToCart(entries, product) == entries + [e];
      AppendLine(entries, e);
      assert LineTotal(e) == product.sellPrice;
    case Some(k) =>
      if entries[k].quantity < product.stock {
        var e := entries[k].(quantity := entries[k].quantity + 1);
        assert entries[k].product == product;
        assert AddedToCart(entries, product) == entries[k := e] by {
          BumpedSingle(entries, product.id, 1, k);
        }
        ReplaceLine(entries, k, e);
        MultiplyStep(product.sellPrice, entries[k].quantity);
      } else {
        assert AddedToCart(entries, product) == entries;
      }
  }

  /** With one line per product, a quantity change touches at most the
      one line found for the product, and only when the new quantity is in
      range. */
  lemma UpdatedSingle(entries: seq<CartEntry>, id: string, delta: int)
    requires UniqueLines(entries)
    ensures match FindEntry(entries, id)
      case None => UpdatedQuantity(entries, id, delta) == entries
      case Some(k) =>
        UpdatedQuantity(entries, id, delta) ==
          if 0 < entries[k].quantity + delta <= entries[k].product.stock
          then entries[k := entries[k].(quantity := entries[k].quantity + delta)]
          else entries
  {
    match FindEntry(entries, id)
    case None =>
      UpdatedAbsent(entries, id, delta);
    case Some(k) =>
      UpdatedAt(entries, id, delta, k);
  }

  lemma UpdatedAbsent(entries: seq<CartEntry>, id: string, delta: int)
    requires forall i :: 0 <= i < |entries| ==> entries[i].product.id != id
    ensures UpdatedQuantity(entries, id, delta) == entries
  {
    var r := UpdatedQuantity(entries, id, delta);
    assert forall i :: 0 <= i < |entries| ==> r[i] == entries[i];
  }

  lemma UpdatedAt(entries: seq<CartEntry>, id: string, delta: int, k: nat)
    requires UniqueLines(entries) && k < |entries| && entries[k].product.id == id
    ensures UpdatedQuantity(entries, id, delta) ==
      if 0 < entries[k].quantity + delta <= entries[k].product.stock
      then entries[k := entries[k].(quantity := entries[k].quantity + delta)]
      else entries
  {
    var r := UpdatedQuantity(entries, id, delta);
    var t := if 0 < entries[k].quantity + delta <= entries[k].product.stock
      then entries[k := entries[k].(quantity := entries[k].quantity + delta)]
      else entries;
    forall i | 0 <= i < |entries| ensures r[i] == t[i] {
      if i != k {
        assert entries[i].product.id != id;
      }
    }
  }

  /** Changing a quantity keeps one line per product with quantities in
      range, and no other product's quantity moves. */
  lemma UpdateQuantityKeepsInvariant(entries: seq<CartEntry>, id: string, delta: int)
    requires CartInvariant(entries)
    ensures var r := UpdatedQuantity(entries, id, delta);
      CartInvariant(r) && forall other :: other != id ==> CartQuantity(r, other) == CartQuantity(entries, other)
  {
    UpdatedSingle(entries, id, delta);
    match FindEntry(entries, id)
    case None =>
    case Some(k) =>
      var q := entries[k].quantity + delta;
      if 0 < q <= entries[k].product.stock {
        ReplaceLine(entries, k, entries[k].(quantity := q));
      }
  }

  /** A quantity change that applies sets the product's quantity to the
      new one and moves the total by exactly delta units of its price. */
  lemma UpdateQuantityApplies(entries: seq<CartEntry>, id: string, delta: int, k: nat)
    requires CartInvariant(entries) && FindEntry(entries, id) == Some(k)
    requires 0 < entries[k].quantity + delta <= entries[k].product.stock
    ensures var r := UpdatedQuantity(entries, id, delta);
      CartQuantity(r, id) == entries[k].quantity + delta &&
      Total(r) == Total(entries) + Multiply(entries[k].product.sellPrice, delta)
  {
    UpdatedSingle(entries, id, delta);
    var e := entries[k].(quantity := entries[k].quantity + delta);
    ReplaceLine(entries, k, e);
    MultiplyDistributes(entries[k].product.sellPrice, entries[k].quantity, delta);
  }

  /** A quantity change for a product not in the cart, or one that would
      leave the range 1 to the line's stock, leaves the cart as it is. */
  lemma UpdateQuantityRejected(entries: seq<CartEntry>, id: string, delta: int)
    requires UniqueLines(entries)
    requires FindEntry(entries, id).Some? ==>
      var q := entries[FindEntry(entries, id).value].quantity + delta;
      q <= 0 || q > entries[FindEntry(entries, id).value].product.stock
    ensures UpdatedQuantity(entries, id, delta) == entries
  {
    UpdatedSingle(entries, id, delta);
  }

  /** With one line per product, removing a product drops exactly its line
      and keeps the others in order. */
  lemma RemovedSingle(entries: seq<CartEntry>, id: string)
    requires UniqueLines(entries)
    ensures match FindEntry(entries, id)
      case None => RemovedFromCart(entries, id) == entries
      case Some(k) => RemovedFromCart(entries, id) == entries[..k] + entries[k + 1..]
  {
    var p := NotProduct(id);
    match FindEntry(entries, id)
    case None =>
      FilterKeepsAll(entries, p);
    case Some(k) =>
      FilterDropsOne(entries, k, p);
  }

  /** Removing a product keeps the cart invariant and lowers the total by
      that product's line total. */
  lemma RemoveFromCartEffect(entries: seq<CartEntry>, id: string)
    requires CartInvariant(entries)
    ensures var r := RemovedFromCart(entries, id);
      CartInvariant(r) && CartQuantity(r, id) == 0 &&
      Total(r) == Total(entries) - Multiply(PriceInCart(entries, id), CartQuantity(entries, id))
  {
    RemovedSingle(entries, id);
    var r := RemovedFromCart(entries, id);
    match FindEntry(entries, id)
    case None =>
    case Some(k) =>
      DropLine(entries, k);
      SumWithout(entries, k, LineTotal);
      assert FindEntry(r, id).None? by {
        forall i | 0 <= i < |r| ensures r[i].product.id != id {
          assert r[i] in r;
        }
      }
  }

  lemma DropLine(entries: seq<CartEntry>, k: nat)
    requires CartInvariant(entries) && k < |entries|
    ensures CartInvariant(entries[..k] + entries[k + 1..])
  {
    var r := entries[..k] + entries[k + 1..];
    assert forall i :: 0 <= i < |r| ==> r[i] == entries[if i < k then i else i + 1];
  }

  /** Unit price of product `id` as its cart line shows it. */
  function PriceInCart(entries: seq<CartEntry>, id: string): Cents
  {
    match FindEntry(entries, id)
    case None => 0
    case Some(k) => entries[k].product.sellPrice
  }

  lemma {:induction false} FindEntryAppend(entries: seq<CartEntry>, e: CartEntry, id: string)
    ensures FindEntry(entries + [e], id) ==
      (if FindEntry(entries, id).Some? then FindEntry(entries, id)
       else if e.product.id == id then Some(|entries|) else None)
  {
    if entries != [] {
      assert (entries + [e])[1..] == entries[1..] + [e];
      FindEntryAppend(entries[1..], e, id);
    }
  }

  lemma {:induction false} FindEntrySameIds(a: seq<CartEntry>, b: seq<CartEntry>, id: string)
    requires |a| == |b|
    requires forall i :: 0 <= i < |a| ==> a[i].product.id == b[i].product.id
    ensures FindEntry(a, id) == FindEntry(b, id)
  {
    if a != [] {
      FindEntrySameIds(a[1..], b[1..], id);
    }
  }

  /** The cart of the sale screen; the operations replace its line list. */
  class Cart {
    var entries: seq<CartEntry>

    ghost predicate Valid()
      reads this
    {
      CartInvariant(entries)
    }

    constructor ()
      ensures Valid() && entries == []
    {
      entries := [];
    }

    /** The screen offers only catalogue products, which are in stock, and
        the product list does not change while the screen is open. */
    method AddToCart(product: Product)
      requires Valid() && product.stock > 0 && SnapshotAgrees(entries, product)
      modifies this
      ensures Valid()
      ensures entries == AddedToCart(old(entries), product)
    {
      AddToCartKeepsInvariant(entries, product);
      entries := AddedToCart(entries, product);
    }

    method UpdateQuantity(id: string, delta: int)
      requires Valid()
      modifies this
      ensures Valid()
      ensures entries == UpdatedQuantity(old(entries), id, delta)
    {
      UpdateQuantityKeepsInvariant(entries, id, delta);
      entries := UpdatedQuantity(entries, id, delta);
    }

    method RemoveFromCart(id: string)
      requires Valid()
      modifies this
      ensures Valid()
      ensures entries == RemovedFromCart(old(entries), id)
    {
      RemoveFromCartEffect(entries, id);
      entries := RemovedFromCart(entries, id);
    }

    /** Emptied after a completed checkout. */
    method Clear()
      modifies this
      ensures Valid() && entries == []
    {
      entries := [];
    }
  }

  /** Change to give back: what was received beyond the total, never
      negative, and nothing when the received amount is not a number. */
  function Change(received: Option<Cents>, total: Cents): (r: Cents)
    ensures r >= 0
    ensures received.Some? && received.value >= total ==> Add(total, r) == received.value
    ensures received.None? || received.value <= total ==> r == 0
  {
    match received
    case None => 0
    case Some(v) => if Subtract(v, total) > 0 then Subtract(v, total) else 0
  }

  datatype CheckoutError = NoMethodSelected | NoOpenSession | InsufficientPayment

  datatype Checkout = Checkout(sale: Transaction, products: seq<Product>)

  /** The line snapshots of a sale: product id, quantity, name, price. */
  function SaleItems(entries: seq<CartEntry>): (r: seq<LineItem>)
    ensures |r| == |entries|
  {
    seq(|entries|, i requires 0 <= i < |entries| =>
      LineItem(entries[i].product.id, entries[i].quantity, entries[i].product.name, entries[i].product.sellPrice))
  }

  /** The product list with each product's cart quantity taken out. */
  function Decremented(products: seq<Product>, entries: seq<CartEntry>): (r: seq<Product>)
    ensures |r| == |products|
    ensures forall k :: 0 <= k < |products| ==>
      r[k] == products[k].(stock := products[k].stock - CartQuantity(entries, products[k].id))
  {
    seq(|products|, k requires 0 <= k < |products| =>
      match FindEntry(entries, products[k].id)
      case None => products[k]
      case Some(j) => products[k].(stock := products[k].stock - entries[j].quantity))
  }

  /** The sale's description: the number of cart lines, then the received
      amount and change for a cash sale with a received amount, or the
      trimmed note for a term sale when it is not blank. */
  function SaleDescription(entries: seq<CartEntry>, selected: PaymentMethod, received: Option<Cents>,
                           total: Cents, termNote: string, format: Cents -> string): (r: string)
    ensures var head := "Venda PDV - " + IntToString(|entries|) + " itens";
      |head| <= |r| && r[..|head|] == head && DigitsValue(head[12..|head| - 6]) == |entries| &&
      (r == head <==> !(selected == Money && received.Some?) && !(selected == Term && Trim(termNote) != []))
  {
    NatToStringValue(|entries|);
    assert ("Venda PDV - " + IntToString(|entries|) + " itens")[12..|"Venda PDV - " + IntToString(|entries|) + " itens"| - 6]
      == IntToString(|entries|);
    "Venda PDV - " + IntToString(|entries|) + " itens"
    + (if selected == Money && received.Some?
       then " | Recebido: " + format(received.value) + " | Troco: " + format(Change(received, total))
       else "")
    + (if selected == Term && Trim(termNote) != [] then " | Cliente/Obs: " + Trim(termNote) else "")
  }

  /** `handleCheckout`. Rejected without a payment method, for cash with no
      open session, and for cash when the received amount is missing or
      below the total. Otherwise: a SALE of the cart total with one line
      snapshot per cart line, and the product list less the sold units.
      `format` renders an amount in the locale's currency. */
  function CheckoutSale(entries: seq<CartEntry>, products: seq<Product>, selected: Option<PaymentMethod>,
                        hasSession: bool, received: Option<Cents>, termNote: string,
                        id: string, now: int, format: Cents -> string): (r: Result<Checkout, CheckoutError>)
    ensures r == Failure(NoMethodSelected) <==> selected.None?
    ensures r == Failure(NoOpenSession) <==> selected == Some(Money) && !hasSession
    ensures r == Failure(InsufficientPayment) <==>
      selected == Some(Money) && hasSession && (received.None? || received.value < Total(entries))
    ensures r.Success? ==>
      var t := r.value.sale;
      t.id == id && t.date == now && t.kind == Sale && t.amount == Total(entries)
      && t.description == SaleDescription(entries, selected.value, received, Total(entries), termNote, format)
      && t.paymentMethod == Paid(selected.value) && t.items == Some(SaleItems(entries))
      && t.status.None? && t.cancellationReason.None?
      && r.value.products == Decremented(products, entries)
  {
    if selected.None? then Failure(NoMethodSelected)
    else if !hasSession && selected.value == Money then Failure(NoOpenSession)
    else if selected.value == Money && (received.None? || received.value < Total(entries)) then Failure(InsufficientPayment)
    else
      var total := Total(entries);
      var t := Transaction(id, now, Sale,
        SaleDescription(entries, selected.value, received, total, termNote, format),
        total, Paid(selected.value), Some(SaleItems(entries)), None, None);
      Success(Checkout(t, Decremented(products, entries)))
  }

  function ItemRevenue(item: LineItem): Cents
  {
    Multiply(item.price, item.quantity)
  }

  /** The sale's amount is the sum of its line snapshots' price times
      quantity. */
  lemma {:induction false} SaleItemsSumToTotal(entries: seq<CartEntry>)
    ensures Sum(SaleItems(entries), ItemRevenue) == Total(entries)
  {
    if entries != [] {
      var init := entries[..|entries| - 1];
      SaleItemsSumToTotal(init);
      assert SaleItems(entries)[..|entries| - 1] == SaleItems(init);
    }
  }

  /** With the cart's lines matching the products' stocks, no product's
      stock goes negative at checkout. */
  lemma CheckoutKeepsStockNonNegative(entries: seq<CartEntry>, products: seq<Product>)
    requires CartInvariant(entries)
    requires forall k :: 0 <= k < |products| ==> products[k].stock >= 0 && SnapshotAgrees(entries, products[k])
    ensures forall k :: 0 <= k < |Decremented(products, entries)| ==> Decremented(products, entries)[k].stock >= 0
  {
    forall k | 0 <= k < |products| ensures Decremented(products, entries)[k].stock >= 0 {
      match FindEntry(entries, products[k].id)
      case None =>
      case Some(j) =>
        assert SnapshotAgrees(entries, products[k]);
    }
  }
}
