/** The dashboard's figures for the current day: the day's active
    transactions, the sum of the day's sales and their number. `dayKey`
    renders a timestamp as the locale's date; `today` is that rendering of
    the clock. */
module Dashboard {
  import opened Types
  import opened Seqs
  import opened Ledger
  import opened Money

  function IsToday(dayKey: int -> string, today: string): Transaction -> bool
  {
    (t: Transaction) => dayKey(t.date) == today && IsActive(t)
  }

  /** The day's non-cancelled transactions, in ledger order. */
  function TodaysTransactions(txs: seq<Transaction>, dayKey: int -> string, today: string): (r: seq<Transaction>)
    ensures forall t :: t in r <==> t in txs && dayKey(t.date) == today && IsActive(t)
  {
    FilterMembers(txs, IsToday(dayKey, today));
    Filter(txs, IsToday(dayKey, today))
  }

  function TodaysSaleList(txs: seq<Transaction>, dayKey: int -> string, today: string): seq<Transaction>
  {
    Filter(TodaysTransactions(txs, dayKey, today), IsSale)
  }

  /** The day's sales total: the amounts of the active sales of the day. */
  function TodaysSales(txs: seq<Transaction>, dayKey: int -> string, today: string): (r: Cents)
    ensures r == MaskedSum(txs, IsTodaysSale(dayKey, today), Amount)
  {
    FilterFilter(txs, IsToday(dayKey, today), IsSale, IsTodaysSale(dayKey, today));
    SumOfFilter(txs, IsTodaysSale(dayKey, today), Amount);
    Sum(TodaysSaleList(txs, dayKey, today), Amount)
  }

  /** The number of active sales of the day, at most the number of
      transactions. */
  function SalesCount(txs: seq<Transaction>, dayKey: int -> string, today: string): (r: nat)
    ensures r == MaskedSum(txs, IsTodaysSale(dayKey, today), One)
    ensures r <= |txs|
  {
    FilterFilter(txs, IsToday(dayKey, today), IsSale, IsTodaysSale(dayKey, today));
    FilterLengthIsCount(txs, IsTodaysSale(dayKey, today));
    |TodaysSaleList(txs, dayKey, today)|
  }

  function IsTodaysSale(dayKey: int -> string, today: string): Transaction -> bool
  {
    (t: Transaction) => dayKey(t.date) == today && IsActive(t) && IsSale(t)
  }

  /** Recording a transaction raises the day's total by its amount and the
      count by one exactly when it is an active sale of the day. */
  lemma FiguresAfterAppend(txs: seq<Transaction>, t: Transaction, dayKey: int -> string, today: string)
    ensures var counted := IsTodaysSale(dayKey, today)(t);
      TodaysSales(txs + [t], dayKey, today) == TodaysSales(txs, dayKey, today) + (if counted then t.amount else 0) &&
      SalesCount(txs + [t], dayKey, today) == SalesCount(txs, dayKey, today) + (if counted then 1 else 0)
  {
    MaskedSumAppend(txs, [t], IsTodaysSale(dayKey, today), Amount);
    MaskedSumAppend(txs, [t], IsTodaysSale(dayKey, today), One);
    assert MaskedSum([t], IsTodaysSale(dayKey, today), Amount) == (if IsTodaysSale(dayKey, today)(t) then t.amount else 0) by {
      assert [t][..0] == [];
    }
    assert MaskedSum([t], IsTodaysSale(dayKey, today), One) == (if IsTodaysSale(dayKey, today)(t) then 1 else 0) by {
      assert [t][..0] == [];
    }
  }

  /** Cancelling one of the day's sales takes it out of both the total and
      the count. */
  lemma FiguresAfterCancel(txs: seq<Transaction>, id: string, reason: string, k: nat, dayKey: int -> string, today: string)
    requires UniqueTransactionIds(txs)
    requires FindTransaction(txs, id) == Some(k) && IsTodaysSale(dayKey, today)(txs[k])
    ensures TodaysSales(CancelMatching(txs, id, reason), dayKey, today) == TodaysSales(txs, dayKey, today) - txs[k].amount
    ensures SalesCount(CancelMatching(txs, id, reason), dayKey, today) == SalesCount(txs, dayKey, today) - 1
  {
    var x := CancelledCopy(txs[k], reason);
    CancelUnique(txs, id, reason, k);
    MaskedSumUpdate(txs, k, x, IsTodaysSale(dayKey, today), Amount);
    MaskedSumUpdate(txs, k, x, IsTodaysSale(dayKey, today), One);
  }
}
