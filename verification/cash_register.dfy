/** The cash register screen: the transactions of the open session, the
    physical drawer balance, the revenue of the shift by payment method, the
    expense form and the cancellation dialog. */
module CashRegister {
  import opened Types
  import opened Seqs
  import opened Text
  import opened Money
  import opened Ledger
  import App

  function OpenedSince(openedAt: int): Transaction -> bool
  {
    (t: Transaction) => t.date >= openedAt
  }

  /** The transactions dated at or after the opening of the current session;
      none when no session is open. The closing time is not a bound. */
  function SessionTransactions(session: Option<Session>, txs: seq<Transaction>): (r: seq<Transaction>)
    ensures session.None? ==> r == []
    ensures session.Some? ==> forall t | t in r :: t in txs && t.date >= session.value.openedAt
    ensures session.Some? ==> forall t | t in txs && t.date >= session.value.openedAt :: t in r
  {
    match session
    case None => []
    case Some(s) =>
      FilterMembers(txs, OpenedSince(s.openedAt));
      Filter(txs, OpenedSince(s.openedAt))
  }

  function SessionActive(session: Option<Session>, txs: seq<Transaction>): seq<Transaction>
  {
    Active(SessionTransactions(session, txs))
  }

  /** Cash that entered the drawer: sales and incomes paid in money,
      the opening float included. */
  function MoneyInOf(t: Transaction): Cents
  {
    if t.paymentMethod == Paid(Money) && (t.kind == Sale || t.kind == Income) then t.amount else 0
  }

  /** Cash that left the drawer: expenses paid in money. */
  function MoneyOutOf(t: Transaction): Cents
  {
    if t.paymentMethod == Paid(Money) && t.kind == Expense then t.amount else 0
  }

  /** Revenue of the shift: sales and incomes other than the opening
      float, with a payment method. */
  predicate IsRevenue(t: Transaction)
  {
    (t.kind == Sale || (t.kind == Income && t.description != OPENING_FLOAT)) && t.paymentMethod != NotApplicable
  }

  function RevenueOf(t: Transaction): Cents
  {
    if IsRevenue(t) then t.amount else 0
  }

  function RevenueIn(m: PaymentMethod): Transaction -> Cents
  {
    (t: Transaction) => if IsRevenue(t) && t.paymentMethod == Paid(m) then t.amount else 0
  }

  predicate IsRevenueIn(t: Transaction, m: PaymentMethod)
  {
    IsRevenue(t) && t.paymentMethod == Paid(m)
  }

  ghost predicate HasRevenueIn(s: seq<Transaction>, m: PaymentMethod)
  {
    exists i :: 0 <= i < |s| && IsRevenueIn(s[i], m)
  }

  datatype Totals = Totals(moneyIn: Cents, moneyOut: Cents, totalRevenue: Cents, byMethod: map<PaymentMethod, Cents>)

  /** The `reduce` over the active session transactions. A method appears
      in the breakdown exactly when some revenue was paid with it. */
  method ComputeTotals(active: seq<Transaction>) returns (r: Totals)
    ensures r.moneyIn == Sum(active, MoneyInOf)
    ensures r.moneyOut == Sum(active, MoneyOutOf)
    ensures r.totalRevenue == Sum(active, RevenueOf)
    ensures forall m :: m in r.byMethod <==> HasRevenueIn(active, m)
    ensures forall m | m in r.byMethod :: r.byMethod[m] == Sum(active, RevenueIn(m))
  {
    r := Totals(0, 0, 0, map[]);
    var i := 0;
    while i < |active|
      invariant 0 <= i <= |active|
      invariant r.moneyIn == Sum(active[..i], MoneyInOf)
      invariant r.moneyOut == Sum(active[..i], MoneyOutOf)
      invariant r.totalRevenue == Sum(active[..i], RevenueOf)
      invariant r.byMethod == MethodTotals(active[..i])
    {
      SumStep(active, i, MoneyInOf);
      SumStep(active, i, MoneyOutOf);
      SumStep(active, i, RevenueOf);
      MethodTotalsStep(active, i);
      r := Accumulate(r, active[i]);
      i := i + 1;
    }
    assert active[..i] == active;
    MethodTotalsBreakdown(active);
  }

  /** The reducer's callback: a cash sale or income raises the cash in, a
      cash expense the cash out, and revenue other than the opening float
      is added to the total and to its method's entry. */
  method Accumulate(acc: Totals, t: Transaction) returns (next: Totals)
    ensures next.moneyIn == acc.moneyIn + MoneyInOf(t)
    ensures next.moneyOut == acc.moneyOut + MoneyOutOf(t)
    ensures next.totalRevenue == acc.totalRevenue + RevenueOf(t)
    ensures next.byMethod == AddRevenue(acc.byMethod, t)
  {
    next := acc;
    var isOpeningBalance := t.description == OPENING_FLOAT;
    if t.paymentMethod == Paid(Money) {
      if t.kind == Sale || t.kind == Income {
        next := next.(moneyIn := next.moneyIn + t.amount);
      } else if t.kind == Expense {
        next := next.(moneyOut := next.moneyOut + t.amount);
      }
    }
    if t.kind == Sale || (t.kind == Income && !isOpeningBalance) {
      if t.paymentMethod != NotApplicable {
        var m := t.paymentMethod.payment;
        var before := if m in next.byMethod then next.byMethod[m] else 0;
        next := next.(byMethod := next.byMethod[m := before + t.amount], totalRevenue := next.totalRevenue + t.amount);
      }
    }
  }

  /** The per-method revenue map the reducer builds, entry by entry. */
  function MethodTotals(s: seq<Transaction>): map<PaymentMethod, Cents>
  {
    if s == [] then map[] else AddRevenue(MethodTotals(s[..|s| - 1]), s[|s| - 1])
  }

  /** One transaction's revenue added to its method's entry. */
  function AddRevenue(totals: map<PaymentMethod, Cents>, t: Transaction): map<PaymentMethod, Cents>
  {
    if IsRevenue(t) then
      var m := t.paymentMethod.payment;
      totals[m := (if m in totals then totals[m] else 0) + t.amount]
    else totals
  }

  lemma MethodTotalsStep(s: seq<Transaction>, i: nat)
    requires i < |s|
    ensures MethodTotals(s[..i + 1]) == AddRevenue(MethodTotals(s[..i]), s[i])
  {
    assert s[..i + 1][..i] == s[..i];
  }

  /** The map holds a method exactly when some revenue was paid with it,
      and then the sum of that revenue. */
  lemma {:induction false} MethodTotalsBreakdown(s: seq<Transaction>)
    ensures Breakdown(MethodTotals(s), s)
  {
    if s != [] {
      var i := |s| - 1;
      MethodTotalsBreakdown(s[..i]);
      assert s[..i + 1] == s;
      if IsRevenue(s[i]) {
        BreakdownAdd(MethodTotals(s[..i]), s, i);
      } else {
        BreakdownSkip(MethodTotals(s[..i]), s, i);
      }
    }
  }

  /** `byMethod` is the breakdown by payment method of the revenue of `s`. */
  ghost predicate Breakdown(byMethod: map<PaymentMethod, Cents>, s: seq<Transaction>)
  {
    (forall m :: m in byMethod <==> HasRevenueIn(s, m)) &&
    (forall m | m in byMethod :: byMethod[m] == Sum(s, RevenueIn(m)))
  }

  lemma BreakdownAdd(byMethod: map<PaymentMethod, Cents>, s: seq<Transaction>, i: nat)
    requires i < |s| && Breakdown(byMethod, s[..i]) && IsRevenue(s[i])
    ensures var m := s[i].paymentMethod.payment;
      Breakdown(byMethod[m := (if m in byMethod then byMethod[m] else 0) + s[i].amount], s[..i + 1])
  {
    var m := s[i].paymentMethod.payment;
    if m !in byMethod {
      NoRevenueSumsToZero(s[..i], m);
    }
    forall n ensures Sum(s[..i + 1], RevenueIn(n)) == Sum(s[..i], RevenueIn(n)) + RevenueIn(n)(s[i])
                 && (HasRevenueIn(s[..i + 1], n) <==> HasRevenueIn(s[..i], n) || IsRevenueIn(s[i], n)) {
      SumStep(s, i, RevenueIn(n));
      HasRevenueStep(s, i, n);
    }
  }

  lemma BreakdownSkip(byMethod: map<PaymentMethod, Cents>, s: seq<Transaction>, i: nat)
    requires i < |s| && Breakdown(byMethod, s[..i]) && !IsRevenue(s[i])
    ensures Breakdown(byMethod, s[..i + 1])
  {
    forall n ensures Sum(s[..i + 1], RevenueIn(n)) == Sum(s[..i], RevenueIn(n))
                 && (HasRevenueIn(s[..i + 1], n) <==> HasRevenueIn(s[..i], n)) {
      SumStep(s, i, RevenueIn(n));
      HasRevenueStep(s, i, n);
    }
  }

  lemma HasRevenueStep(s: seq<Transaction>, i: nat, m: PaymentMethod)
    requires i < |s|
    ensures HasRevenueIn(s[..i + 1], m) <==> HasRevenueIn(s[..i], m) || IsRevenueIn(s[i], m)
  {
    if HasRevenueIn(s[..i + 1], m) && !IsRevenueIn(s[i], m) {
      var j :| 0 <= j < i + 1 && IsRevenueIn(s[..i + 1][j], m);
      assert s[..i][j] == s[j];
    }
    if HasRevenueIn(s[..i], m) {
      var j :| 0 <= j < i && IsRevenueIn(s[..i][j], m);
      assert s[..i + 1][j] == s[j];
    }
    if IsRevenueIn(s[i], m) {
      assert s[..i + 1][i] == s[i];
    }
  }

  lemma {:induction false} NoRevenueSumsToZero(s: seq<Transaction>, m: PaymentMethod)
    requires !HasRevenueIn(s, m)
    ensures Sum(s, RevenueIn(m)) == 0
  {
    if s != [] {
      var init := s[..|s| - 1];
      NoRevenueSumsToZero(init, m);
      assert !IsRevenueIn(s[|s| - 1], m);
    }
  }

  /** The physical drawer: cash in less cash out over the active
      transactions of the session; zero without a session. */
  function DrawerBalance(session: Option<Session>, txs: seq<Transaction>): (r: Cents)
    ensures session.None? ==> r == 0
    ensures session.Some? ==> r == MaskedSum(txs, InSession(session.value.openedAt), DrawerEffect)
  {
    if session.None? then 0
    else
      SessionActiveIsOneFilter(session.value, txs);
      SumDifference(Filter(txs, InSession(session.value.openedAt)));
      SumOfFilter(txs, InSession(session.value.openedAt), DrawerEffect);
      Subtract(Sum(SessionActive(session, txs), MoneyInOf), Sum(SessionActive(session, txs), MoneyOutOf))
  }

  /** The shift's revenue: the revenue of the active transactions dated
      within the open session; zero without a session. */
  function ShiftRevenue(session: Option<Session>, txs: seq<Transaction>): (r: Cents)
    ensures session.None? ==> r == 0
    ensures session.Some? ==> r == MaskedSum(txs, InSession(session.value.openedAt), RevenueOf)
  {
    if session.None? then
      assert SessionActive(session, txs) == [] by { assert SessionTransactions(session, txs) == []; }
      Sum(SessionActive(session, txs), RevenueOf)
    else
      SessionActiveIsOneFilter(session.value, txs);
      SumOfFilter(txs, InSession(session.value.openedAt), RevenueOf);
      Sum(SessionActive(session, txs), RevenueOf)
  }

  /** The drawer effects sum to cash in less cash out. */
  lemma {:induction false} SumDifference(s: seq<Transaction>)
    ensures Sum(s, MoneyInOf) - Sum(s, MoneyOutOf) == Sum(s, DrawerEffect)
  {
    if s != [] {
      SumDifference(s[..|s| - 1]);
    }
  }

  /** The shift's revenue is the sum of its revenue by each of the five
      payment methods. */
  lemma {:induction false} RevenueIsSumOverMethods(s: seq<Transaction>)
    ensures Sum(s, RevenueOf) ==
      Sum(s, RevenueIn(Money)) + Sum(s, RevenueIn(Credit)) + Sum(s, RevenueIn(Debit))
      + Sum(s, RevenueIn(Pix)) + Sum(s, RevenueIn(Term))
  {
    if s != [] {
      RevenueIsSumOverMethods(s[..|s| - 1]);
      var t := s[|s| - 1];
      match t.paymentMethod
      case NotApplicable =>
      case Paid(m) =>
        match m
        case Money =>
        case Credit =>
        case Debit =>
        case Pix =>
        case Term =>
    }
  }

  function InSession(openedAt: int): Transaction -> bool
  {
    (t: Transaction) => t.date >= openedAt && IsActive(t)
  }

  /** The active session transactions, as one filter. */
  lemma SessionActiveIsOneFilter(s: Session, txs: seq<Transaction>)
    ensures SessionActive(Some(s), txs) == Filter(txs, InSession(s.openedAt))
  {
    FilterFilter(txs, OpenedSince(s.openedAt), IsActive, InSession(s.openedAt));
  }

  function DrawerEffect(t: Transaction): Cents
  {
    MoneyInOf(t) - MoneyOutOf(t)
  }

  /** Appending a transaction moves the drawer by its cash effect when it
      is active and dated within the session, and by nothing otherwise. */
  lemma DrawerAfterAppend(s: Session, txs: seq<Transaction>, t: Transaction)
    ensures DrawerBalance(Some(s), txs + [t]) ==
      DrawerBalance(Some(s), txs) + (if t.date >= s.openedAt && IsActive(t) then DrawerEffect(t) else 0)
    ensures ShiftRevenue(Some(s), txs + [t]) ==
      ShiftRevenue(Some(s), txs) + (if t.date >= s.openedAt && IsActive(t) then RevenueOf(t) else 0)
  {
    var p := InSession(s.openedAt);
    SessionActiveIsOneFilter(s, txs);
    SessionActiveIsOneFilter(s, txs + [t]);
    FilterAppend(txs, [t], p);
    assert Filter([t], p) == (if p(t) then [t] else []) by { assert [t][..0] == []; }
    SumAppend(Filter(txs, p), Filter([t], p), MoneyInOf);
    SumAppend(Filter(txs, p), Filter([t], p), MoneyOutOf);
    SumAppend(Filter(txs, p), Filter([t], p), RevenueOf);
    if p(t) {
      assert [t][..0] == [];
    }
  }

  /** Opening a register with a float puts exactly the float in the drawer
      and no revenue in the shift, whatever happened before the opening. */
  lemma OpeningShowsFloat(txs: seq<Transaction>, sessionId: string, txId: string, now: int, initialAmount: Cents)
    requires forall i :: 0 <= i < |txs| ==> txs[i].date < now
    ensures var s := App.NewSession(sessionId, now, initialAmount);
      var after := txs + [App.OpeningFloat(txId, now, initialAmount)];
      DrawerBalance(Some(s), after) == initialAmount && ShiftRevenue(Some(s), after) == 0
  {
    var s := App.NewSession(sessionId, now, initialAmount);
    var t := App.OpeningFloat(txId, now, initialAmount);
    assert s.openedAt == now;
    assert t.date >= now && IsActive(t);
    assert DrawerEffect(t) == initialAmount && RevenueOf(t) == 0;
    FirstInShift(s, txs, t);
  }

  /** The first transaction of a shift makes up both of its figures. */
  lemma FirstInShift(s: Session, txs: seq<Transaction>, t: Transaction)
    requires forall i :: 0 <= i < |txs| ==> txs[i].date < s.openedAt
    requires t.date >= s.openedAt && IsActive(t)
    ensures DrawerBalance(Some(s), txs + [t]) == DrawerEffect(t)
    ensures ShiftRevenue(Some(s), txs + [t]) == RevenueOf(t)
  {
    DrawerAfterAppend(s, txs, t);
    NothingBeforeOpening(s, txs);
  }

  /** Transactions dated before the opening count for neither figure. */
  lemma NothingBeforeOpening(s: Session, txs: seq<Transaction>)
    requires forall i :: 0 <= i < |txs| ==> txs[i].date < s.openedAt
    ensures DrawerBalance(Some(s), txs) == 0 && ShiftRevenue(Some(s), txs) == 0
  {
    FilterNone(txs, InSession(s.openedAt));
    SessionActiveIsOneFilter(s, txs);
    assert SessionActive(Some(s), txs) == [];
  }

  lemma {:induction false} FilterNone(txs: seq<Transaction>, p: Transaction -> bool)
    requires forall i :: 0 <= i < |txs| ==> !p(txs[i])
    ensures Filter(txs, p) == []
  {
    if txs != [] {
      FilterNone(txs[..|txs| - 1], p);
    }
  }

  /** Cancelling an active transaction of a ledger with distinct
      identifiers takes its cash effect out of the drawer and its revenue
      out of the shift, if it belongs to the session; nothing else moves. */
  lemma DrawerAfterCancel(s: Session, txs: seq<Transaction>, id: string, reason: string, k: nat)
    requires UniqueTransactionIds(txs)
    requires FindTransaction(txs, id) == Some(k) && IsActive(txs[k])
    ensures var after := CancelMatching(txs, id, reason);
      var inSession := txs[k].date >= s.openedAt;
      DrawerBalance(Some(s), after) == DrawerBalance(Some(s), txs) - (if inSession then DrawerEffect(txs[k]) else 0) &&
      ShiftRevenue(Some(s), after) == ShiftRevenue(Some(s), txs) - (if inSession then RevenueOf(txs[k]) else 0)
  {
    var p := InSession(s.openedAt);
    var x := CancelledCopy(txs[k], reason);
    CancelUnique(txs, id, reason, k);
    SessionActiveIsOneFilter(s, txs);
    SessionActiveIsOneFilter(s, txs[k := x]);
    SumOfFilter(txs, p, MoneyInOf);
    SumOfFilter(txs, p, MoneyOutOf);
    SumOfFilter(txs, p, RevenueOf);
    SumOfFilter(txs[k := x], p, MoneyInOf);
    SumOfFilter(txs[k := x], p, MoneyOutOf);
    SumOfFilter(txs[k := x], p, RevenueOf);
    MaskedSumUpdate(txs, k, x, p, MoneyInOf);
    MaskedSumUpdate(txs, k, x, p, MoneyOutOf);
    MaskedSumUpdate(txs, k, x, p, RevenueOf);
  }

  /** `handleAddExpense`: a cash expense of the parsed amount, or nothing
      when the description is empty or the amount is not a number. */
  function ExpenseEntry(description: string, amount: Option<Cents>, id: string, now: int): (r: Option<Transaction>)
    ensures r.None? <==> description == [] || amount.None?
    ensures r.Some? ==>
      r.value.kind == Expense && r.value.amount == amount.value &&
      r.value.description == description && r.value.date == now && r.value.id == id &&
      r.value.paymentMethod == Paid(Money) && r.value.status == Some(Completed)
  {
    if description == [] || amount.None? then None
    else Some(Transaction(id, now, Expense, description, amount.value, Paid(Money), None, Some(Completed), None))
  }

  /** A recorded expense dated within the open session takes its amount
      out of the drawer and adds nothing to the revenue. */
  lemma ExpenseLowersDrawer(s: Session, txs: seq<Transaction>, description: string, amount: Cents, id: string, now: int)
    requires now >= s.openedAt && description != []
    ensures var t := ExpenseEntry(description, Some(amount), id, now).value;
      DrawerBalance(Some(s), txs + [t]) == DrawerBalance(Some(s), txs) - amount &&
      ShiftRevenue(Some(s), txs + [t]) == ShiftRevenue(Some(s), txs)
  {
    var t := ExpenseEntry(description, Some(amount), id, now).value;
    assert t.date >= s.openedAt && IsActive(t);
    assert DrawerEffect(t) == -amount && RevenueOf(t) == 0;
    DrawerAfterAppend(s, txs, t);
  }

  /** `handleConfirmCancel`: the identifier and the reason as typed, only
      when a transaction is selected and the reason is not blank. */
  function ConfirmCancel(cancelId: Option<string>, reason: string): (r: Option<(string, string)>)
    ensures r.Some? <==> cancelId.Some? && cancelId.value != [] && exists i :: 0 <= i < |reason| && !IsSpace(reason[i])
    ensures r.Some? ==> r.value == (cancelId.value, reason)
  {
    TrimEmptyIffBlank(reason);
    if cancelId.Some? && cancelId.value != [] && Trim(reason) != [] then Some((cancelId.value, reason)) else None
  }

  /** A reason made only of the ideographic space or the line separator is
      blank to `trim()`, so the cancellation does not proceed. */
  lemma UnicodeBlankReasonRefused(id: string)
    ensures ConfirmCancel(Some(id), "\U{3000}").None?
    ensures ConfirmCancel(Some(id), "\U{2028}\U{2003}").None?
  {
    assert IsSpace("\U{3000}"[0]);
    assert IsSpace("\U{2028}\U{2003}"[0]) && IsSpace("\U{2028}\U{2003}"[1]);
  }
}
