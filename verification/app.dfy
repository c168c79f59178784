/** The application state: the product list, the transaction ledger and the
    cash-register sessions, with the handlers that replace them. Fresh
    identifiers and the current time are parameters. */
module App {
  import opened Types
  import opened Text
  import opened Stock
  import opened Ledger
  import Inventory


  /** Index of the first OPEN session. */
  function FindOpen(sessions: seq<Session>): (r: Option<nat>)
    ensures r.None? <==> forall i :: 0 <= i < |sessions| ==> sessions[i].status != Open
    ensures r.Some? ==> r.value < |sessions| && sessions[r.value].status == Open
                        && forall j :: 0 <= j < r.value ==> sessions[j].status != Open
  {
    if sessions == [] then None
    else if sessions[0].status == Open then Some(0)
    else match FindOpen(sessions[1..])
      case None => None
      case Some(k) => Some(k + 1)
  }

  /** The active session: the first OPEN one, if any. */
  function ActiveSessionOf(sessions: seq<Session>): (r: Option<Session>)
    ensures r.Some? ==> r.value in sessions && r.value.status == Open
    ensures r.None? <==> forall i :: 0 <= i < |sessions| ==> sessions[i].status != Open
  {
    match FindOpen(sessions)
    case None => None
    case Some(k) => Some(sessions[k])
  }

  ghost predicate AtMostOneOpen(sessions: seq<Session>)
  {
    forall i, j :: 0 <= i < j < |sessions| ==> sessions[i].status != Open || sessions[j].status != Open
  }

  function NewSession(id: string, now: int, initialAmount: int): Session
  {
    Session(id, now, None, initialAmount, None, None, Open)
  }

  /** The synthetic income that puts the opening float in the drawer. */
  function OpeningFloat(id: string, now: int, initialAmount: int): (r: Transaction)
    ensures r.id == id && r.date == now && r.amount == initialAmount
    ensures IsActive(r) && r.kind == Income && r.paymentMethod == Paid(Money)
    ensures r.description == OPENING_FLOAT && r.items.None?
  {
    Transaction(id, now, Income, OPENING_FLOAT, initialAmount, Paid(Money), None, Some(Completed), None)
  }

  function ClosedCopy(s: Session, now: int, counted: int): Session
  {
    s.(closedAt := Some(now), status := Closed, countedAmount := Some(counted))
  }

  /** The session list after closing: every session with the given
      identifier is CLOSED with closing time and counted amount. */
  function CloseMatching(sessions: seq<Session>, id: string, now: int, counted: int): (r: seq<Session>)
    ensures |r| == |sessions|
    ensures forall k :: 0 <= k < |sessions| ==>
      r[k].id == sessions[k].id && r[k].openedAt == sessions[k].openedAt
      && r[k].initialAmount == sessions[k].initialAmount && r[k].finalAmount == sessions[k].finalAmount
      && (sessions[k].id != id ==> r[k] == sessions[k])
    ensures forall k :: 0 <= k < |sessions| && sessions[k].id == id ==>
      r[k].status == Closed && r[k].closedAt == Some(now) && r[k].countedAmount == Some(counted)
  {
    seq(|sessions|, k requires 0 <= k < |sessions| =>
      if sessions[k].id == id then ClosedCopy(sessions[k], now, counted) else sessions[k])
  }

  /** Closing the active session of a list with at most one OPEN session
      leaves none open; each other session, and the final amount of every
      session, is untouched. */
  lemma CloseLeavesNoneOpen(sessions: seq<Session>, now: int, counted: int)
    requires AtMostOneOpen(sessions)
    requires ActiveSessionOf(sessions).Some?
    ensures var r := CloseMatching(sessions, ActiveSessionOf(sessions).value.id, now, counted);
      AtMostOneOpen(r) && ActiveSessionOf(r).None? &&
      forall k :: 0 <= k < |r| ==> r[k].finalAmount == sessions[k].finalAmount
  {
    var a := ActiveSessionOf(sessions).value;
    var k :| 0 <= k < |sessions| && sessions[k] == a;
    var r := CloseMatching(sessions, a.id, now, counted);
    forall i | 0 <= i < |r| ensures r[i].status != Open {
      if sessions[i].id != a.id {
        assert i != k;
      }
    }
  }

  function EntryDescription(mode: EntryMode, quantity: int, name: string): string
  {
    (if mode == Buy then "Compra de Estoque: " else "Produção Interna: ")
    + IntToString(quantity) + "x " + name
  }

  /** The ledger entry of a stock entry: a MONEY expense for the cost of a
      purchase, or a zero-valued production log without payment method. */
  function StockEntryLog(id: string, now: int, product: Product, quantity: int, mode: EntryMode, costTotal: int): (t: Transaction)
    ensures t.kind == (if mode == Buy then Expense else Production)
    ensures t.amount == (if mode == Buy then costTotal else 0)
    ensures t.paymentMethod == (if mode == Buy then Paid(Money) else NotApplicable)
    ensures t.status == Some(Completed) && t.items.None?
  {
    Transaction(id, now, if mode == Buy then Expense else Production,
      EntryDescription(mode, quantity, product.name),
      if mode == Buy then costTotal else 0,
      if mode == Buy then Paid(Money) else NotApplicable,
      None, Some(Completed), None)
  }

  class AppState {
    var products: seq<Product>
    var transactions: seq<Transaction>
    var cashSessions: seq<Session>

    /** At most one session is OPEN, and ledger identifiers (random UUIDs)
        are distinct. */
    ghost predicate Valid()
      reads this
    {
      AtMostOneOpen(cashSessions) && UniqueTransactionIds(transactions)
    }

    ghost predicate FreshTransactionId(id: string)
      reads this
    {
      forall i :: 0 <= i < |transactions| ==> transactions[i].id != id
    }

    /** The state as the persistence layer loads it. */
    constructor (products: seq<Product>, transactions: seq<Transaction>, cashSessions: seq<Session>)
      requires AtMostOneOpen(cashSessions) && UniqueTransactionIds(transactions)
      ensures Valid()
      ensures this.products == products && this.transactions == transactions
      ensures this.cashSessions == cashSessions
    {
      this.products := products;
      this.transactions := transactions;
      this.cashSessions := cashSessions;
    }

    function ActiveSession(): Option<Session>
      reads this
    {
      ActiveSessionOf(cashSessions)
    }

    /** Opens a session and posts its opening float. The screen offers this
        only while no session is open. */
    method OpenSession(sessionId: string, txId: string, now: int, initialAmount: int)
      requires Valid()
      requires ActiveSession().None?
      requires FreshTransactionId(txId)
      modifies this
      ensures Valid()
      ensures cashSessions == old(cashSessions) + [NewSession(sessionId, now, initialAmount)]
      ensures transactions == old(transactions) + [OpeningFloat(txId, now, initialAmount)]
      ensures products == old(products)
      ensures ActiveSession() == Some(NewSession(sessionId, now, initialAmount))
      ensures Extends(old(transactions), transactions)
    {
      var before := cashSessions;
      cashSessions := cashSessions + [NewSession(sessionId, now, initialAmount)];
      transactions := transactions + [OpeningFloat(txId, now, initialAmount)];
      ExtendsByAppend(old(transactions), [OpeningFloat(txId, now, initialAmount)]);
      assert cashSessions[|before|].status == Open;
      assert forall j :: 0 <= j < |before| ==> cashSessions[j] == before[j];
      assert FindOpen(cashSessions) == Some(|before|);
    }

    /** Closes the active session with the counted amount, whatever it is;
        with no session open nothing happens. */
    method CloseSession(now: int, counted: int)
      requires Valid()
      modifies this
      ensures Valid()
      ensures old(ActiveSession()).None? ==> cashSessions == old(cashSessions)
      ensures old(ActiveSession()).Some? ==>
        cashSessions == CloseMatching(old(cashSessions), old(ActiveSession()).value.id, now, counted)
      ensures ActiveSession().None?
      ensures products == old(products) && transactions == old(transactions)
    {
      var active := ActiveSession();
      if active.None? {
        return;
      }
      CloseLeavesNoneOpen(cashSessions, now, counted);
      cashSessions := CloseMatching(cashSessions, active.value.id, now, counted);
    }

    /** Records a sale, forced to COMPLETED, and takes the product list the
        checkout computed. */
    method CompleteSale(t: Transaction, updatedProducts: seq<Product>)
      requires Valid()
      requires FreshTransactionId(t.id)
      modifies this
      ensures Valid()
      ensures transactions == old(transactions) + [t.(status := Some(Completed))]
      ensures products == updatedProducts
      ensures cashSessions == old(cashSessions)
      ensures Extends(old(transactions), transactions)
    {
      transactions := transactions + [t.(status := Some(Completed))];
      products := updatedProducts;
      ExtendsByAppend(old(transactions), [t.(status := Some(Completed))]);
    }

    /** Receives stock for a product: a purchase posts its cost as a MONEY
        expense, a production posts a zero-valued log. An unknown product
        changes nothing. */
    method StockEntry(productId: string, quantity: int, mode: EntryMode, costTotal: int, txId: string, now: int)
      requires Valid()
      requires FreshTransactionId(txId)
      modifies this
      ensures Valid()
      ensures FindProduct(old(products), productId).None? ==>
        products == old(products) && transactions == old(transactions)
      ensures FindProduct(old(products), productId).Some? ==>
        products == Restocked(old(products), productId, quantity) &&
        transactions == old(transactions) + [StockEntryLog(txId, now,
          old(products)[FindProduct(old(products), productId).value], quantity, mode, costTotal)]
      ensures cashSessions == old(cashSessions)
      ensures Extends(old(transactions), transactions)
    {
      var k := FindProduct(products, productId);
      if k.None? {
        return;
      }
      var product := products[k.value];
      products := Restocked(products, productId, quantity);
      var log := StockEntryLog(txId, now, product, quantity, mode, costTotal);
      transactions := transactions + [log];
      ExtendsByAppend(old(transactions), [log]);
    }

    /** Soft-cancels a transaction. A missing or already cancelled
        identifier changes nothing; a cancelled sale gives each of its
        lines back to the stock of the product it names, skipping products
        that no longer exist. The screen asks for a non-blank reason. */
    method CancelTransaction(id: string, reason: string)
      requires Valid()
      requires Trim(reason) != []
      modifies this
      ensures Valid()
      ensures var k := FindTransaction(old(transactions), id);
        if k.None? || !IsActive(old(transactions)[k.value]) then
          transactions == old(transactions) && products == old(products)
        else
          var target := old(transactions)[k.value];
          transactions == CancelMatching(old(transactions), id, reason) &&
          products == (if target.kind == Sale && target.items.Some?
                       then RestoreStock(old(products), target.items.value)
                       else old(products))
      ensures cashSessions == old(cashSessions)
      ensures Extends(old(transactions), transactions)
    {
      var k := FindTransaction(transactions, id);
      if k.None? || !IsActive(transactions[k.value]) {
        ExtendsReflexive(transactions);
        return;
      }
      var target := transactions[k.value];
      CancelExtends(transactions, id, reason);
      CancelUnique(transactions, id, reason, k.value);
      transactions := CancelMatching(transactions, id, reason);
      if target.kind == Sale && target.items.Some? {
        RestoreLines(target.items.value);
      }
    }

    /** The `forEach` of a cancellation: each line's quantity is added in
        place to the stock of the first product with its identifier. */
    method RestoreLines(items: seq<LineItem>)
      modifies this
      ensures products == RestoreStock(old(products), items)
      ensures transactions == old(transactions) && cashSessions == old(cashSessions)
    {
      var updatedProducts := products;
      var i := 0;
      while i < |items|
        invariant 0 <= i <= |items|
        invariant unchanged(this)
        invariant updatedProducts == RestoreStock(products, items[..i])
      {
        var item := items[i];
        var prodIndex := FindProduct(updatedProducts, item.productId);
        if prodIndex.Some? {
          var p := prodIndex.value;
          updatedProducts := StockAddedAt(updatedProducts, p, item.quantity);
        }
        RestoreStockStep(products, items, i);
        i := i + 1;
      }
      assert items[..|items|] == items;
      products := updatedProducts;
    }

    /** Appends imported transactions after the existing ones. */
    method ImportTransactions(newTransactions: seq<Transaction>)
      requires Valid()
      requires UniqueTransactionIds(transactions + newTransactions)
      modifies this
      ensures Valid()
      ensures transactions == old(transactions) + newTransactions
      ensures products == old(products) && cashSessions == old(cashSessions)
      ensures Extends(old(transactions), transactions)
    {
      transactions := transactions + newTransactions;
      ExtendsByAppend(old(transactions), newTransactions);
    }

    /** Records a transaction built by the cash-register screen (an
        expense), forced to COMPLETED. */
    method AddTransaction(t: Transaction)
      requires Valid()
      requires FreshTransactionId(t.id)
      modifies this
      ensures Valid()
      ensures transactions == old(transactions) + [t.(status := Some(Completed))]
      ensures products == old(products) && cashSessions == old(cashSessions)
      ensures Extends(old(transactions), transactions)
    {
      transactions := transactions + [t.(status := Some(Completed))];
      ExtendsByAppend(old(transactions), [t.(status := Some(Completed))]);
    }
    /** The inventory form's save: the product list becomes the saved list,
        or stays as it is when the form is rejected. */
    method SaveProduct(form: Inventory.ProductForm, editing: Option<string>, newId: string)
      requires Valid()
      modifies this
      ensures Valid()
      ensures products == (match Inventory.Saved(old(products), form, editing, newId)
                           case None => old(products)
                           case Some(ps) => ps)
      ensures transactions == old(transactions) && cashSessions == old(cashSessions)
    {
      match Inventory.Saved(products, form, editing, newId)
      case None =>
      case Some(ps) => products := ps;
    }

    /** The inventory's delete, once confirmed. */
    method DeleteProduct(id: string)
      requires Valid()
      modifies this
      ensures Valid()
      ensures products == Inventory.Deleted(old(products), id)
      ensures transactions == old(transactions) && cashSessions == old(cashSessions)
    {
      products := Inventory.Deleted(products, id);
    }
  }
}
