/** The reports screen: daily sales, the split of sales by payment method
    with its ticket average, the five best-selling products, and the CSV
    import. Every chart and table reads only active transactions. */
module Reports {
  import opened Types
  import opened Seqs
  import opened Text
  import opened Money
  import opened Ledger
  import opened Grouping
  import opened Sorting

  predicate IsActiveSale(t: Transaction)
  {
    IsActive(t) && IsSale(t)
  }

  /** The active sales, in ledger order. */
  function Sales(txs: seq<Transaction>): (r: seq<Transaction>)
    ensures forall i :: 0 <= i < |r| ==> IsActiveSale(r[i])
  {
    FilterMembers(Active(txs), IsSale);
    Filter(Active(txs), IsSale)
  }

  lemma SalesIsOneFilter(txs: seq<Transaction>)
    ensures Sales(txs) == Filter(txs, IsActiveSale)
  {
    FilterFilter(txs, IsActive, IsSale, IsActiveSale);
  }

  /** Recording a transaction adds its contribution to a report over the
      active sales exactly when it is an active sale. */
  lemma SalesSumAfterAppend(txs: seq<Transaction>, t: Transaction, f: Transaction -> int)
    ensures Sum(Sales(txs + [t]), f) == Sum(Sales(txs), f) + (if IsActiveSale(t) then f(t) else 0)
  {
    SalesIsOneFilter(txs);
    SalesIsOneFilter(txs + [t]);
    FilterAppend(txs, [t], IsActiveSale);
    assert Filter([t], IsActiveSale) == (if IsActiveSale(t) then [t] else []) by { assert [t][..0] == []; }
    SumAppend(Filter(txs, IsActiveSale), Filter([t], IsActiveSale), f);
    if IsActiveSale(t) {
      assert [t][..0] == [];
    }
  }

  /** Cancelling an active transaction of a ledger with distinct
      identifiers takes its contribution out of every report over the
      active sales, and changes nothing else in them. */
  lemma SalesSumAfterCancel(txs: seq<Transaction>, id: string, reason: string, k: nat, f: Transaction -> int)
    requires UniqueTransactionIds(txs)
    requires FindTransaction(txs, id) == Some(k) && IsActive(txs[k])
    ensures Sum(Sales(CancelMatching(txs, id, reason)), f) ==
      Sum(Sales(txs), f) - (if IsSale(txs[k]) then f(txs[k]) else 0)
  {
    var x := CancelledCopy(txs[k], reason);
    CancelUnique(txs, id, reason, k);
    SalesIsOneFilter(txs);
    SalesIsOneFilter(txs[k := x]);
    SumOfFilter(txs, IsActiveSale, f);
    SumOfFilter(txs[k := x], IsActiveSale, f);
    MaskedSumUpdate(txs, k, x, IsActiveSale, f);
  }

  /** The (key, amount) pair of each sale. */
  function KeyedPairs<K>(sales: seq<Transaction>, key: Transaction -> K): (r: seq<(K, int)>)
    ensures |r| == |sales|
  {
    seq(|sales|, i requires 0 <= i < |sales| => (key(sales[i]), sales[i].amount))
  }

  lemma {:induction false} KeyedPairsSum<K>(sales: seq<Transaction>, key: Transaction -> K)
    ensures Sum(KeyedPairs(sales, key), PairAmount) == Sum(sales, Amount)
  {
    if sales != [] {
      var init := sales[..|sales| - 1];
      KeyedPairsSum(init, key);
      assert KeyedPairs(sales, key)[..|sales| - 1] == KeyedPairs(init, key);
    }
  }

  function DayOf(dayKey: int -> string): Transaction -> string
  {
    (t: Transaction) => dayKey(t.date)
  }

  function MethodOf(t: Transaction): MethodTag
  {
    t.paymentMethod
  }

  function DayPairs(txs: seq<Transaction>, dayKey: int -> string): seq<(string, int)>
  {
    KeyedPairs(Sales(txs), DayOf(dayKey))
  }

  function MethodPairs(txs: seq<Transaction>): seq<(MethodTag, int)>
  {
    KeyedPairs(Sales(txs), MethodOf)
  }

  /** `salesData`: sale amounts summed per day, days in order of first
      appearance, the last seven kept. `dayKey` renders a timestamp as the
      locale's date. */
  method SalesByDay(txs: seq<Transaction>, dayKey: int -> string) returns (days: seq<Group<string>>)
    ensures var all := Grouped(DayPairs(txs, dayKey));
      |days| == (if |all| < 7 then |all| else 7) && days == all[|all| - |days|..]
    ensures Distinct(days) && InFirstAppearanceOrder(DayPairs(txs, dayKey), days)
    ensures forall j :: 0 <= j < |days| ==>
      days[j].total == MaskedSum(DayPairs(txs, dayKey), KeyIs(days[j].key), PairAmount)
  {
    var pairs := DayPairs(txs, dayKey);
    var all := GroupSums(pairs);
    GroupedInFirstAppearanceOrder(pairs);
    GroupedTotalsAt(pairs);
    days := if |all| > 7 then all[|all| - 7..] else all;
    SuffixGroups(pairs, all, |all| - |days|);
  }

  /** `paymentData`: sale amounts summed per payment method, one slice per
      method that was used. */
  method PaymentData(txs: seq<Transaction>) returns (slices: seq<Group<MethodTag>>)
    ensures Distinct(slices)
    ensures forall m :: FindGroup(slices, m).Some? <==> KeyOccurs(MethodPairs(txs), m)
    ensures forall j :: 0 <= j < |slices| ==>
      slices[j].total == MaskedSum(MethodPairs(txs), KeyIs(slices[j].key), PairAmount)
    ensures Sum(slices, GroupTotal) == Sum(Sales(txs), Amount)
  {
    var pairs := MethodPairs(txs);
    slices := GroupSums(pairs);
    GroupedTotalsAt(pairs);
    GroupedSums(pairs);
    KeyedPairsSum(Sales(txs), MethodOf);
  }

  datatype MethodRow = MethodRow(tag: MethodTag, total: Cents, count: int, ticket: Cents)

  function ToRow(g: Group<MethodTag>): MethodRow
    requires g.count > 0
  {
    MethodRow(g.key, g.total, g.count, RoundDiv(g.total, g.count))
  }

  function RowTotal(r: MethodRow): int
  {
    r.total
  }

  function RowCount(r: MethodRow): int
  {
    r.count
  }

  function RowsFor(m: MethodTag): MethodRow -> int
  {
    (r: MethodRow) => if r.tag == m then 1 else 0
  }

  /** The detailed table: per payment method the sum of its sale amounts,
      the number of those sales and the average ticket rounded to the
      cent, sorted by non-increasing total with ties in order of first
      use. */
  method PaymentDetailed(txs: seq<Transaction>) returns (rows: seq<MethodRow>)
    ensures SortedDesc(rows, RowTotal)
    ensures forall m :: Sum(rows, RowsFor(m)) == if KeyOccurs(MethodPairs(txs), m) then 1 else 0
    ensures forall x | x in rows ::
      x.count >= 1 && x.ticket == RoundDiv(x.total, x.count) &&
      x.total == MaskedSum(MethodPairs(txs), KeyIs(x.tag), PairAmount) &&
      x.count == MaskedSum(MethodPairs(txs), KeyIs(x.tag), One)
    ensures Sum(rows, RowCount) == |Sales(txs)|
    ensures Sum(rows, RowTotal) == Sum(Sales(txs), Amount)
  {
    var pairs := MethodPairs(txs);
    var groups := GroupSums(pairs);
    GroupedKeys(pairs);
    var mapped := ToRows(groups);
    rows := SortDesc(mapped, RowTotal);
    SortDescPermutes(mapped, RowTotal);
    SortDescMembers(mapped, RowTotal);
    RowsDescribeGroups(pairs);
    forall m ensures Sum(rows, RowsFor(m)) == if KeyOccurs(pairs, m) then 1 else 0 {
      SortDescSum(mapped, RowTotal, RowsFor(m));
      RowsPerMethod(pairs, m);
    }
    SortDescSum(mapped, RowTotal, RowCount);
    SortDescSum(mapped, RowTotal, RowTotal);
    RowsSums(pairs);
    KeyedPairsSum(Sales(txs), MethodOf);
  }

  /** One row per group, in the groups' order. */
  function ToRows(groups: seq<Group<MethodTag>>): (r: seq<MethodRow>)
    requires forall j :: 0 <= j < |groups| ==> groups[j].count > 0
    ensures |r| == |groups| && forall j :: 0 <= j < |groups| ==> r[j] == ToRow(groups[j])
  {
    seq(|groups|, j requires 0 <= j < |groups| => ToRow(groups[j]))
  }

  /** Each row carries its method's sale total and count, and the ticket
      is their rounded quotient. */
  lemma RowsDescribeGroups(pairs: seq<(MethodTag, int)>)
    requires forall j :: 0 <= j < |Grouped(pairs)| ==> Grouped(pairs)[j].count > 0
    ensures forall x | x in ToRows(Grouped(pairs)) ::
      x.count >= 1 && x.ticket == RoundDiv(x.total, x.count) &&
      x.total == MaskedSum(pairs, KeyIs(x.tag), PairAmount) &&
      x.count == MaskedSum(pairs, KeyIs(x.tag), One)
  {
    var mapped := ToRows(Grouped(pairs));
    forall x | x in mapped ensures
      x.count >= 1 && x.ticket == RoundDiv(x.total, x.count) &&
      x.total == MaskedSum(pairs, KeyIs(x.tag), PairAmount) &&
      x.count == MaskedSum(pairs, KeyIs(x.tag), One)
    {
      var j :| 0 <= j < |mapped| && mapped[j] == x;
      GroupedAt(pairs, j);
    }
  }

  /** Exactly one row for each method that was used, none for the others. */
  lemma RowsPerMethod(pairs: seq<(MethodTag, int)>, m: MethodTag)
    requires forall j :: 0 <= j < |Grouped(pairs)| ==> Grouped(pairs)[j].count > 0
    ensures Sum(ToRows(Grouped(pairs)), RowsFor(m)) == if KeyOccurs(pairs, m) then 1 else 0
  {
    GroupedKeys(pairs);
    MappedSum(Grouped(pairs), HasKey(m), RowsFor(m));
    OneGroupPerKey(Grouped(pairs), m);
  }

  /** The rows' counts add up to the number of pairs, their totals to the
      pairs' amounts. */
  lemma RowsSums(pairs: seq<(MethodTag, int)>)
    requires forall j :: 0 <= j < |Grouped(pairs)| ==> Grouped(pairs)[j].count > 0
    ensures Sum(ToRows(Grouped(pairs)), RowCount) == |pairs|
    ensures Sum(ToRows(Grouped(pairs)), RowTotal) == Sum(pairs, PairAmount)
  {
    MappedSum(Grouped(pairs), Count, RowCount);
    MappedSum(Grouped(pairs), GroupTotal, RowTotal);
    GroupedSums(pairs);
  }

  /** Summing over the rows is summing over the groups they come from. */
  lemma {:induction false} MappedSum(groups: seq<Group<MethodTag>>, f: Group<MethodTag> -> int, h: MethodRow -> int)
    requires forall j :: 0 <= j < |groups| ==> groups[j].count > 0 && h(ToRow(groups[j])) == f(groups[j])
    ensures Sum(ToRows(groups), h) == Sum(groups, f)
  {
    if groups != [] {
      var init := groups[..|groups| - 1];
      MappedSum(init, f, h);
      assert ToRows(groups)[..|groups| - 1] == ToRows(init);
    }
  }

  /** Index of the first line of `items` for product `id`. */
  function FindItem(items: seq<LineItem>, id: string): (r: Option<nat>)
    ensures r.None? <==> forall i :: 0 <= i < |items| ==> items[i].productId != id
    ensures r.Some? ==> r.value < |items| && items[r.value].productId == id
                        && forall j :: 0 <= j < r.value ==> items[j].productId != id
  {
    if items == [] then None
    else if items[0].productId == id then Some(0)
    else match FindItem(items[1..], id)
      case None => None
      case Some(k) => Some(k + 1)
  }

  /** What one sale earned from product `id`: price times quantity of its
      first line for the product. */
  function ItemRevenueFor(id: string): Transaction -> Cents
  {
    (t: Transaction) =>
      match t.items
      case None => 0
      case Some(items) =>
        match FindItem(items, id)
        case None => 0
        case Some(j) => Multiply(items[j].price, items[j].quantity)
  }

  /** What product `id` earned over the given sales; nothing when no
      sale carries a line for it. */
  function Revenue(sales: seq<Transaction>, id: string): (r: Cents)
    ensures (forall i :: 0 <= i < |sales| ==> sales[i].items.None? || FindItem(sales[i].items.value, id).None?) ==> r == 0
  {
    assert (forall i :: 0 <= i < |sales| ==> sales[i].items.None? || FindItem(sales[i].items.value, id).None?)
      ==> Sum(sales, ItemRevenueFor(id)) == 0 by {
      if forall i :: 0 <= i < |sales| ==> sales[i].items.None? || FindItem(sales[i].items.value, id).None? {
        SumZero(sales, ItemRevenueFor(id));
      }
    }
    Sum(sales, ItemRevenueFor(id))
  }

  datatype Ranked = Ranked(product: Product, revenue: Cents)

  function RankRevenue(r: Ranked): int
  {
    r.revenue
  }

  /** Every product of the catalogue, in order, with its revenue. */
  function Ranking(products: seq<Product>, sales: seq<Transaction>): (r: seq<Ranked>)
    ensures |r| == |products|
    ensures forall i :: 0 <= i < |products| ==> r[i].product == products[i] && r[i].revenue == Revenue(sales, products[i].id)
  {
    seq(|products|, i requires 0 <= i < |products| => Ranked(products[i], Revenue(sales, products[i].id)))
  }

  /** `topProducts`: every product with its revenue over the active
      sales, stably sorted by non-increasing revenue, the first five. */
  function TopProducts(products: seq<Product>, txs: seq<Transaction>): (r: seq<Ranked>)
    ensures |r| == if |products| < 5 then |products| else 5
  {
    Top(Ranking(products, Sales(txs)), RankRevenue, 5)
  }

  /** The ranking lists products of the catalogue with their revenue, in
      non-increasing order, and no product left out earned more than the
      last one listed. */
  lemma TopProductsCorrect(products: seq<Product>, txs: seq<Transaction>)
    ensures var r := TopProducts(products, txs);
      SortedDesc(r, RankRevenue) &&
      (forall x | x in r :: x.product in products && x.revenue == Revenue(Sales(txs), x.product.id)) &&
      (|r| > 0 ==> forall i :: 0 <= i < |products| && Ranking(products, Sales(txs))[i] !in r ==>
         Revenue(Sales(txs), products[i].id) <= r[|r| - 1].revenue)
  {
    var ranking := Ranking(products, Sales(txs));
    var r := TopProducts(products, txs);
    TopCorrect(ranking, RankRevenue, 5);
    forall x | x in r ensures x.product in products && x.revenue == Revenue(Sales(txs), x.product.id) {
      assert x in multiset(ranking);
      var i :| 0 <= i < |ranking| && ranking[i] == x;
    }
    if |r| > 0 {
      forall i | 0 <= i < |products| && ranking[i] !in r
        ensures Revenue(Sales(txs), products[i].id) <= r[|r| - 1].revenue
      {
        assert ranking[i] in ranking;
      }
    }
  }

  /** Cancelling a sale takes what it earned from each product out of
      that product's revenue. */
  lemma RevenueAfterCancel(txs: seq<Transaction>, id: string, reason: string, k: nat, productId: string)
    requires UniqueTransactionIds(txs)
    requires FindTransaction(txs, id) == Some(k) && IsActive(txs[k])
    ensures Revenue(Sales(CancelMatching(txs, id, reason)), productId) ==
      Revenue(Sales(txs), productId) - (if IsSale(txs[k]) then ItemRevenueFor(productId)(txs[k]) else 0)
  {
    SalesSumAfterCancel(txs, id, reason, k, ItemRevenueFor(productId));
  }

  // ---------------------------------------------------------------- import

  /** What one accepted CSV line yields. */
  datatype ImportedLine = ImportedLine(kind: Kind, description: string, amount: Cents)

  const FIELD_SEPARATORS: set<char> := {';', ','}

  /** One CSV line: blank lines and lines with fewer than three fields
      give nothing; otherwise an EXPENSE when the upper-cased third field
      contains SAIDA and an INCOME else, for the absolute value of the
      fourth field (zero when absent or not a number). `amountOf` parses a
      field into cents. */
  function ParseLine(line: string, amountOf: string -> Option<Cents>): (r: Option<ImportedLine>)
    ensures r.Some? <==> Trim(line) != [] && |Split(Trim(line), FIELD_SEPARATORS)| >= 3
  {
    var l := Trim(line);
    if l == [] then None
    else
      var parts := Split(l, FIELD_SEPARATORS);
      if |parts| < 3 then None
      else
        var parsed := if |parts| > 3 then amountOf(parts[3]) else None;
        var amount := match parsed
          case None => 0
          case Some(v) => if v < 0 then -v else v;
        Some(ImportedLine(
          if ExpenseField(parts[2]) then Expense else Income,
          "Importado: " + (if parts[1] == [] then "CSV Item" else parts[1]),
          amount))
  }

  /** An accepted line is an expense exactly when its third field names
      one, an income otherwise. Its amount is the magnitude of the fourth
      field, or zero when there is no fourth field or it is not a number.
      Its description is the second field, or "CSV Item" when that field
      is empty, marked as imported. */
  lemma ParseLineFields(line: string, amountOf: string -> Option<Cents>)
    requires ParseLine(line, amountOf).Some?
    ensures var x := ParseLine(line, amountOf).value;
      var parts := Split(Trim(line), FIELD_SEPARATORS);
      (x.kind == Expense <==> ExpenseField(parts[2])) &&
      (x.kind != Expense ==> x.kind == Income)
    ensures var x := ParseLine(line, amountOf).value;
      var parts := Split(Trim(line), FIELD_SEPARATORS);
      x.amount >= 0 &&
      (|parts| <= 3 || amountOf(parts[3]).None? ==> x.amount == 0) &&
      (|parts| > 3 && amountOf(parts[3]).Some? ==>
        x.amount == amountOf(parts[3]).value || x.amount == -amountOf(parts[3]).value)
    ensures var x := ParseLine(line, amountOf).value;
      var parts := Split(Trim(line), FIELD_SEPARATORS);
      |x.description| >= 11 && x.description[..11] == "Importado: " &&
      x.description[11..] == (if parts[1] == [] then "CSV Item" else parts[1])
  {
  }

  /** The accepted lines, in order. */
  function ParsedLines(lines: seq<string>, amountOf: string -> Option<Cents>): (r: seq<ImportedLine>)
    ensures |r| <= |lines|
  {
    if lines == [] then []
    else
      var init := ParsedLines(lines[..|lines| - 1], amountOf);
      match ParseLine(lines[|lines| - 1], amountOf)
      case None => init
      case Some(x) => init + [x]
  }

  function ImportedTransaction(x: ImportedLine, id: string, now: int): Transaction
  {
    Transaction(id, now, x.kind, x.description, x.amount, Paid(Money), None, Some(Completed), None)
  }

  function ImportedTransactions(parsed: seq<ImportedLine>, ids: seq<string>, now: int): (r: seq<Transaction>)
    requires |ids| >= |parsed|
    ensures |r| == |parsed|
  {
    seq(|parsed|, i requires 0 <= i < |parsed| => ImportedTransaction(parsed[i], ids[i], now))
  }

  /** The CSV branch of the import: the text split into lines, the
      header skipped, one transaction per accepted line with the next
      fresh identifier. The result is absent, and nothing is handed to the
      ledger, when no line was accepted. */
  method ImportCsv(text: string, ids: seq<string>, now: int, amountOf: string -> Option<Cents>)
    returns (r: Option<seq<Transaction>>)
    requires |ids| >= |Split(text, {'\n'})|
    ensures var parsed := ParsedLines(Split(text, {'\n'})[1..], amountOf);
      (r.None? <==> parsed == []) &&
      (r.Some? ==> r.value == ImportedTransactions(parsed, ids, now))
    ensures r.Some? ==> forall i :: 0 <= i < |r.value| ==>
      r.value[i].kind in {Expense, Income} && r.value[i].amount >= 0 &&
      r.value[i].paymentMethod == Paid(Money) && IsActive(r.value[i])
  {
    var lines := Split(text, {'\n'});
    var newTransactions: seq<Transaction> := [];
    ghost var parsed: seq<ImportedLine> := [];
    var i := 1;
    NothingParsedYet(lines, amountOf);
    while i < |lines|
      invariant 1 <= i <= |lines|
      invariant parsed == ParsedLines(lines[1..i], amountOf)
      invariant |parsed| <= i - 1
      invariant newTransactions == ImportedTransactions(parsed, ids, now)
    {
      ParsedLinesStep(lines, i, amountOf);
      var line := Trim(lines[i]);
      if line != [] {
        var parts := Split(line, FIELD_SEPARATORS);
        if |parts| >= 3 {
          var x := ParseLine(lines[i], amountOf).value;
          ImportedTransactionsAppend(parsed, x, ids, now);
          newTransactions := newTransactions + [ImportedTransaction(x, ids[|newTransactions|], now)];
          parsed := parsed + [x];
        } else {
          assert ParseLine(lines[i], amountOf).None?;
        }
      } else {
        assert ParseLine(lines[i], amountOf).None?;
      }
      assert parsed == ParsedLines(lines[1..i + 1], amountOf);
      assert |parsed| <= i;
      i := i + 1;
    }
    assert lines[1..i] == lines[1..];
    if |newTransactions| > 0 {
      r := Some(newTransactions);
      ParsedLinesKinds(lines[1..], amountOf);
      ImportedRecords(parsed, ids, now);
    } else {
      r := None;
    }
  }

  /** Imported records are cash incomes or expenses with a non-negative
      amount, none of them cancelled. */
  lemma ImportedRecords(parsed: seq<ImportedLine>, ids: seq<string>, now: int)
    requires |ids| >= |parsed|
    requires forall j :: 0 <= j < |parsed| ==> parsed[j].kind in {Expense, Income} && parsed[j].amount >= 0
    ensures forall j :: 0 <= j < |parsed| ==>
      var t := ImportedTransactions(parsed, ids, now)[j];
      t.kind in {Expense, Income} && t.amount >= 0 && t.paymentMethod == Paid(Money) && IsActive(t)
  {
  }

  lemma {:induction false} ParsedLinesKinds(lines: seq<string>, amountOf: string -> Option<Cents>)
    ensures forall j :: 0 <= j < |ParsedLines(lines, amountOf)| ==>
      ParsedLines(lines, amountOf)[j].kind in {Expense, Income} && ParsedLines(lines, amountOf)[j].amount >= 0
  {
    if lines != [] {
      ParsedLinesKinds(lines[..|lines| - 1], amountOf);
      if ParseLine(lines[|lines| - 1], amountOf).Some? {
        ParseLineFields(lines[|lines| - 1], amountOf);
      }
    }
  }

  lemma NothingParsedYet(lines: seq<string>, amountOf: string -> Option<Cents>)
    requires |lines| >= 1
    ensures ParsedLines(lines[1..1], amountOf) == []
  {
  }

  lemma ParsedLinesStep(lines: seq<string>, i: nat, amountOf: string -> Option<Cents>)
    requires 1 <= i < |lines|
    ensures ParsedLines(lines[1..i + 1], amountOf) ==
      ParsedLines(lines[1..i], amountOf) +
      (if ParseLine(lines[i], amountOf).Some? then [ParseLine(lines[i], amountOf).value] else [])
  {
    assert lines[1..i + 1][..i - 1] == lines[1..i];
  }

  lemma ImportedTransactionsAppend(parsed: seq<ImportedLine>, x: ImportedLine, ids: seq<string>, now: int)
    requires |ids| > |parsed|
    ensures ImportedTransactions(parsed + [x], ids, now) ==
      ImportedTransactions(parsed, ids, now) + [ImportedTransaction(x, ids[|parsed|], now)]
  {
  }

  /** The type field marks an expense. */
  predicate ExpenseField(field: string)
  {
    Contains(Upper(field), "SAIDA")
  }

  /** The type field is matched against the unaccented word in any case. */
  lemma UnaccentedIsExpense()
    ensures ExpenseField("saida") && ExpenseField("Saida")
  {
    UpperAida();
    assert Contains("SAIDA", "SAIDA") by {
      assert OccursAt("SAIDA", "SAIDA", 0);
    }
    assert Upper("saida") == "SAIDA" by {
      assert "saida"[1..] == "aida";
    }
    assert Upper("Saida") == "SAIDA" by {
      assert "Saida"[1..] == "aida";
    }
  }

  lemma UpperAida()
    ensures Upper("aida") == "AIDA"
  {
    assert Upper("a") == "A";
    assert Upper("da") == "DA";
    assert Upper("ida") == "IDA";
  }

  /** A sharp s upper-cases to "SS", so "\U{df}aida" reads as "SSAIDA"
      and marks an expense. */
  lemma EszettSaidaIsExpense()
    ensures ExpenseField("\U{df}aida")
  {
    UpperAida();
    assert Contains("SSAIDA", "SAIDA") by {
      assert OccursAt("SSAIDA", "SAIDA", 1);
    }
    assert Upper("\U{df}aida") == "SSAIDA" by {
      assert "\U{df}aida"[1..] == "aida";
    }
  }

  /** The accented Portuguese spelling "Sa\U{ed}da" is not recognised, so
      a line typed that way imports as income. */
  lemma AccentedIsNotExpense()
    ensures !ExpenseField("Sa\U{ed}da")
  {
    var u := Upper("Sa\U{ed}da");
    assert |u| == 5 && u[2] == UpperChar('\U{ed}');
    assert !OccursAt(u, "SAIDA", 0) by {
      assert u[2] != "SAIDA"[2];
    }
  }
}
