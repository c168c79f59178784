/** Stock conservation across the two screens that move stock for a sale:
    the point of sale takes each cart line's quantity out of the product
    list, and cancelling that sale gives the recorded line items back. */
module Reconciliation {
  import opened Types
  import opened Text
  import opened Stock
  import opened Ledger
  import opened Pos
  import App

  /** The line items of a sale carry, per product, exactly the quantity the
      cart held for it. */
  lemma {:induction false} QuantityForSaleItems(entries: seq<CartEntry>, id: string)
    requires UniqueLines(entries)
    ensures QuantityFor(SaleItems(entries), id) == CartQuantity(entries, id)
  {
    if entries != [] {
      var n := |entries| - 1;
      var init := entries[..n];
      assert UniqueLines(init);
      QuantityForSaleItems(init, id);
      assert SaleItems(entries)[..n] == SaleItems(init);
      assert entries == init + [entries[n]];
      FindEntryAppend(init, entries[n], id);
      if entries[n].product.id == id {
        assert FindEntry(init, id).None?;
      }
    }
  }

  /** Selling a cart and then cancelling that sale leaves every product
      exactly as before, stock included, when product identifiers are
      distinct and the cart holds one line per product. */
  lemma SaleThenCancelRestoresStock(products: seq<Product>, entries: seq<CartEntry>)
    requires UniqueProductIds(products)
    requires UniqueLines(entries)
    ensures RestoreStock(Decremented(products, entries), SaleItems(entries)) == products
  {
    var sold := Decremented(products, entries);
    assert UniqueProductIds(sold) by {
      assert forall k :: 0 <= k < |sold| ==> sold[k].id == products[k].id;
    }
    RestoreStockEffect(sold, SaleItems(entries));
    forall k | 0 <= k < |products|
      ensures RestoreStock(sold, SaleItems(entries))[k] == products[k]
    {
      QuantityForSaleItems(entries, products[k].id);
    }
  }

  /** The store's own handlers: completing a sale built from the cart and
      then cancelling it restores the product list and leaves the sale in
      the ledger, cancelled. */
  method SellThenCancel(store: App.AppState, entries: seq<CartEntry>, sale: Transaction, reason: string)
    requires store.Valid() && store.FreshTransactionId(sale.id)
    requires sale.kind == Sale && sale.items == Some(SaleItems(entries))
    requires UniqueProductIds(store.products) && UniqueLines(entries)
    requires Trim(reason) != []
    modifies store
    ensures store.Valid()
    ensures store.products == old(store.products)
    ensures store.transactions ==
      old(store.transactions) + [CancelledCopy(sale.(status := Some(Completed)), reason)]
    ensures store.cashSessions == old(store.cashSessions)
  {
    SaleThenCancelRestoresStock(store.products, entries);
    var recorded := sale.(status := Some(Completed));
    FindAppended(store.transactions, recorded);
    store.CompleteSale(sale, Decremented(store.products, entries));
    store.CancelTransaction(sale.id, reason);
    CancelUnique(old(store.transactions) + [recorded], sale.id, reason, |old(store.transactions)|);
    assert (old(store.transactions) + [recorded])[|old(store.transactions)| := CancelledCopy(recorded, reason)]
      == old(store.transactions) + [CancelledCopy(recorded, reason)];
  }
}
