/** Stock movements on the product list: the increase of a stock entry and
    the per-line restoration that cancelling a sale performs. */
module Stock {
  import opened Types

  /** The product list after a stock entry: every product with the given
      identifier gains `quantity` units. */
  function Restocked(products: seq<Product>, id: string, quantity: int): (r: seq<Product>)
    ensures |r| == |products|
    ensures forall k :: 0 <= k < |r| ==> r[k].id == products[k].id
    ensures forall k :: 0 <= k < |r| ==>
      r[k].stock == products[k].stock + (if products[k].id == id then quantity else 0) &&
      r[k].(stock := products[k].stock) == products[k]
  {
    seq(|products|, k requires 0 <= k < |products| =>
      if products[k].id == id then products[k].(stock := products[k].stock + quantity) else products[k])
  }

  /** Gives back one line's quantity to the first product with its
      identifier; a line whose product no longer exists is skipped. */
  function RestoreLine(products: seq<Product>, item: LineItem): (r: seq<Product>)
    ensures |r| == |products|
    ensures forall k :: 0 <= k < |r| ==> r[k].id == products[k].id
  {
    match FindProduct(products, item.productId)
    case None => products
    case Some(k) => StockAddedAt(products, k, item.quantity)
  }

  /** The list with `quantity` more units of product `k` (`stock +=`). */
  function StockAddedAt(products: seq<Product>, k: nat, quantity: int): seq<Product>
    requires k < |products|
  {
    products[k := products[k].(stock := products[k].stock + quantity)]
  }

  /** The lines given back one after another, in order. */
  function RestoreStock(products: seq<Product>, items: seq<LineItem>): (r: seq<Product>)
    ensures |r| == |products|
    ensures forall k :: 0 <= k < |r| ==> r[k].id == products[k].id
  {
    if items == [] then products
    else RestoreLine(RestoreStock(products, items[..|items| - 1]), items[|items| - 1])
  }

  lemma RestoreStockStep(products: seq<Product>, items: seq<LineItem>, i: nat)
    requires i < |items|
    ensures RestoreStock(products, items[..i + 1]) == RestoreLine(RestoreStock(products, items[..i]), items[i])
  {
    assert items[..i + 1][..i] == items[..i];
  }

  /** Total quantity of the lines that name product `id`. */
  function QuantityFor(items: seq<LineItem>, id: string): int
  {
    if items == [] then 0
    else QuantityFor(items[..|items| - 1], id)
         + (if items[|items| - 1].productId == id then items[|items| - 1].quantity else 0)
  }

  ghost predicate SameIds(a: seq<Product>, b: seq<Product>)
  {
    |a| == |b| && forall k :: 0 <= k < |a| ==> a[k].id == b[k].id
  }

  /** With distinct product identifiers, restoring a list of lines raises
      each product's stock by exactly the quantity its lines carry, and
      changes nothing else about any product. */
  lemma {:induction false} RestoreStockEffect(products: seq<Product>, items: seq<LineItem>)
    requires UniqueProductIds(products)
    ensures var r := RestoreStock(products, items);
      forall k :: 0 <= k < |r| ==>
        r[k] == products[k].(stock := products[k].stock + QuantityFor(items, products[k].id))
  {
    if items != [] {
      var init := items[..|items| - 1];
      var last := items[|items| - 1];
      RestoreStockEffect(products, init);
      var mid := RestoreStock(products, init);
      assert UniqueProductIds(mid) by {
        assert SameIds(mid, products);
      }
      match FindProduct(mid, last.productId)
      case None =>
      case Some(j) =>
        forall k | 0 <= k < |products|
          ensures RestoreStock(products, items)[k]
               == products[k].(stock := products[k].stock + QuantityFor(items, products[k].id))
        {
          if k != j {
            assert products[k].id != last.productId;
          }
        }
    }
  }

  /** Restoring lines that name no listed product leaves the list as it is. */
  lemma {:induction false} RestoreUnknownLines(products: seq<Product>, items: seq<LineItem>)
    requires forall i :: 0 <= i < |items| ==> FindProduct(products, items[i].productId).None?
    ensures RestoreStock(products, items) == products
  {
    if items != [] {
      RestoreUnknownLines(products, items[..|items| - 1]);
    }
  }

  lemma {:induction false} QuantityForAppend(a: seq<LineItem>, b: seq<LineItem>, id: string)
    ensures QuantityFor(a + b, id) == QuantityFor(a, id) + QuantityFor(b, id)
  {
    if b == [] {
      assert a + b == a;
    } else {
      assert (a + b)[..|a + b| - 1] == a + b[..|b| - 1];
      QuantityForAppend(a, b[..|b| - 1], id);
    }
  }
}
