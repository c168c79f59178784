/** The records of the point-of-sale store: products, ledger transactions
    and cash-register sessions. Money is in integer cents, timestamps are
    integers (milliseconds since the epoch). */
module Types {

  datatype Option<+T> = None | Some(value: T)

  datatype Result<+R, +E> = Success(value: R) | Failure(error: E)

  /** The five ways a customer can pay. */
  datatype PaymentMethod = Money | Credit | Debit | Pix | Term

  /** A transaction's method column: a payment method, or the marker
      'N/A' that production logs carry. */
  datatype MethodTag = Paid(payment: PaymentMethod) | NotApplicable

  datatype Kind = Sale | Expense | Income | Production

  datatype Status = Completed | Cancelled

  /** A snapshot of one sold product, taken at sale time. */
  datatype LineItem = LineItem(productId: string, quantity: int, name: string, price: int)

  datatype Product = Product(
    id: string,
    name: string,
    category: string,
    costPrice: int,
    sellPrice: int,
    stock: int,
    minStock: int)

  /** A ledger entry. `items` is present on sales only; `status` may be
      absent, which counts as active. */
  datatype Transaction = Transaction(
    id: string,
    date: int,
    kind: Kind,
    description: string,
    amount: int,
    paymentMethod: MethodTag,
    items: Option<seq<LineItem>>,
    status: Option<Status>,
    cancellationReason: Option<string>)

  /** A stock entry either buys units in or produces them in house. */
  datatype EntryMode = Buy | Produce

  datatype SessionStatus = Open | Closed

  datatype Session = Session(
    id: string,
    openedAt: int,
    closedAt: Option<int>,
    initialAmount: int,
    finalAmount: Option<int>,
    countedAmount: Option<int>,
    status: SessionStatus)

  /** The description that tags the opening-float income of a session. */
  const OPENING_FLOAT: string := "Abertura de Caixa"

  /** Only an explicit CANCELLED status makes a transaction inactive. */
  predicate IsActive(t: Transaction)
  {
    t.status != Some(Cancelled)
  }

  predicate IsSale(t: Transaction)
  {
    t.kind == Sale
  }

  function Amount(t: Transaction): int
  {
    t.amount
  }

  /** The display value of a method column, as stored in the ledger. */
  function MethodName(m: MethodTag): (r: string)
    ensures r == "N/A" <==> m == NotApplicable
  {
    match m
    case NotApplicable => "N/A"
    case Paid(Money) => "Dinheiro"
    case Paid(Credit) => "Crédito"
    case Paid(Debit) => "Débito"
    case Paid(Pix) => "Pix"
    case Paid(Term) => "A Prazo"
  }

  /** Distinct methods have distinct display values. */
  lemma MethodNameInjective(a: MethodTag, b: MethodTag)
    requires MethodName(a) == MethodName(b)
    ensures a == b
  {
  }

  /** The first index in `txs` of a transaction with identifier `id`. */
  function FindTransaction(txs: seq<Transaction>, id: string): (r: Option<nat>)
    ensures r.None? <==> forall i :: 0 <= i < |txs| ==> txs[i].id != id
    ensures r.Some? ==> r.value < |txs| && txs[r.value].id == id
                        && forall j :: 0 <= j < r.value ==> txs[j].id != id
  {
    if txs == [] then None
    else if txs[0].id == id then Some(0)
    else match FindTransaction(txs[1..], id)
      case None => None
      case Some(k) => Some(k + 1)
  }

  /** The first index in `products` of a product with identifier `id`. */
  function FindProduct(products: seq<Product>, id: string): (r: Option<nat>)
    ensures r.None? <==> forall i :: 0 <= i < |products| ==> products[i].id != id
    ensures r.Some? ==> r.value < |products| && products[r.value].id == id
                        && forall j :: 0 <= j < r.value ==> products[j].id != id
  {
    if products == [] then None
    else if products[0].id == id then Some(0)
    else match FindProduct(products[1..], id)
      case None => None
      case Some(k) => Some(k + 1)
  }

  ghost predicate UniqueProductIds(products: seq<Product>)
  {
    forall i, j :: 0 <= i < j < |products| ==> products[i].id != products[j].id
  }

  ghost predicate UniqueTransactionIds(txs: seq<Transaction>)
  {
    forall i, j :: 0 <= i < j < |txs| ==> txs[i].id != txs[j].id
  }
}
