/** The transaction ledger: an append-only list whose entries can only be
    soft-cancelled, never removed or otherwise edited. */
module Ledger {
  import opened Types
  import opened Seqs

  function Active(txs: seq<Transaction>): (r: seq<Transaction>)
    ensures forall i :: 0 <= i < |r| ==> IsActive(r[i])
  {
    Filter(txs, IsActive)
  }

  function CancelledCopy(t: Transaction, reason: string): Transaction
  {
    t.(status := Some(Cancelled), cancellationReason := Some(reason))
  }

  /** The ledger after cancelling `id`: every entry with that identifier is
      marked CANCELLED with the reason; all others are kept as they are. */
  function CancelMatching(txs: seq<Transaction>, id: string, reason: string): (r: seq<Transaction>)
    ensures |r| == |txs|
    ensures forall k :: 0 <= k < |txs| ==> r[k].id == txs[k].id && (txs[k].id != id ==> r[k] == txs[k])
    ensures forall k :: 0 <= k < |txs| && txs[k].id == id ==>
      !IsActive(r[k]) && r[k].cancellationReason == Some(reason)
      && r[k].(status := txs[k].status, cancellationReason := txs[k].cancellationReason) == txs[k]
  {
    seq(|txs|, k requires 0 <= k < |txs| =>
      if txs[k].id == id then CancelledCopy(txs[k], reason) else txs[k])
  }

  /** `b` is `a` after a step of the ledger: `a` is kept in place as a
      prefix, each of its entries either unchanged or cancelled with a
      reason, an already cancelled entry never touched again, and only
      new entries appended. */
  ghost predicate Extends(a: seq<Transaction>, b: seq<Transaction>)
  {
    |a| <= |b| &&
    forall i :: 0 <= i < |a| ==>
      b[i] == a[i] || (IsActive(a[i]) && exists reason :: b[i] == CancelledCopy(a[i], reason))
  }

  lemma ExtendsReflexive(a: seq<Transaction>)
    ensures Extends(a, a)
  {
  }

  lemma ExtendsByAppend(a: seq<Transaction>, b: seq<Transaction>)
    ensures Extends(a, a + b)
  {
  }

  lemma {:induction false} ExtendsTransitive(a: seq<Transaction>, b: seq<Transaction>, c: seq<Transaction>)
    requires Extends(a, b) && Extends(b, c)
    ensures Extends(a, c)
  {
    forall i | 0 <= i < |a|
      ensures c[i] == a[i] || (IsActive(a[i]) && exists reason :: c[i] == CancelledCopy(a[i], reason))
    {
      if b[i] != a[i] {
        var reason :| b[i] == CancelledCopy(a[i], reason);
        assert !IsActive(b[i]);
        assert c[i] == b[i];
      }
    }
  }

  /** Cancelling an identifier whose first entry is active is a ledger step:
      nothing is removed, reordered or re-valued. */
  lemma CancelExtends(txs: seq<Transaction>, id: string, reason: string)
    requires UniqueTransactionIds(txs)
    requires FindTransaction(txs, id).Some? ==> IsActive(txs[FindTransaction(txs, id).value])
    ensures Extends(txs, CancelMatching(txs, id, reason))
  {
    var r := CancelMatching(txs, id, reason);
    forall i | 0 <= i < |txs|
      ensures r[i] == txs[i] || (IsActive(txs[i]) && exists reason :: r[i] == CancelledCopy(txs[i], reason))
    {
      if txs[i].id == id {
        assert r[i] == CancelledCopy(txs[i], reason);
      }
    }
  }

  /** After a cancellation the first entry with that identifier is the same
      one and is CANCELLED: a second cancel of the identifier finds nothing
      to do. */
  lemma CancelLeavesCancelled(txs: seq<Transaction>, id: string, reason: string)
    ensures var r := CancelMatching(txs, id, reason);
      FindTransaction(r, id) == FindTransaction(txs, id) &&
      (FindTransaction(r, id).Some? ==> !IsActive(r[FindTransaction(r, id).value]))
  {
    var r := CancelMatching(txs, id, reason);
    assert forall i :: 0 <= i < |txs| ==> (r[i].id == id <==> txs[i].id == id);
    FindSameIds(txs, r, id);
  }

  lemma {:induction false} FindSameIds(a: seq<Transaction>, b: seq<Transaction>, id: string)
    requires |a| == |b|
    requires forall i :: 0 <= i < |a| ==> (a[i].id == id <==> b[i].id == id)
    ensures FindTransaction(a, id) == FindTransaction(b, id)
  {
    if a != [] && a[0].id != id {
      assert b[0].id != id;
      assert forall i :: 0 <= i < |a| - 1 ==> a[1..][i] == a[i + 1] && b[1..][i] == b[i + 1];
      FindSameIds(a[1..], b[1..], id);
    }
  }

  /** A transaction recorded under a fresh identifier is found at the end. */
  lemma FindAppended(txs: seq<Transaction>, t: Transaction)
    requires forall i :: 0 <= i < |txs| ==> txs[i].id != t.id
    ensures FindTransaction(txs + [t], t.id) == Some(|txs|)
  {
    var all := txs + [t];
    assert all[|txs|].id == t.id;
    assert forall i :: 0 <= i < |txs| ==> all[i].id != t.id;
  }

  /** With distinct identifiers a cancellation touches one entry only. */
  lemma CancelUnique(txs: seq<Transaction>, id: string, reason: string, k: nat)
    requires UniqueTransactionIds(txs)
    requires FindTransaction(txs, id) == Some(k)
    ensures CancelMatching(txs, id, reason) == txs[k := CancelledCopy(txs[k], reason)]
  {
  }

  /** Cancelling an active entry of a ledger with distinct identifiers keeps
      its length and lowers the number of active entries by one. */
  lemma CancelLowersActiveCount(txs: seq<Transaction>, id: string, reason: string, k: nat)
    requires UniqueTransactionIds(txs)
    requires FindTransaction(txs, id) == Some(k) && IsActive(txs[k])
    ensures |CancelMatching(txs, id, reason)| == |txs|
    ensures |Active(CancelMatching(txs, id, reason))| == |Active(txs)| - 1
  {
    CancelUnique(txs, id, reason, k);
    FilterLengthIsCount(txs, IsActive);
    FilterLengthIsCount(txs[k := CancelledCopy(txs[k], reason)], IsActive);
    MaskedSumUpdate(txs, k, CancelledCopy(txs[k], reason), IsActive, One);
  }

  /** The ledger after cancelling each identifier of `ids` in turn. */
  function CancelEach(txs: seq<Transaction>, ids: seq<string>, reason: string): (r: seq<Transaction>)
    ensures |r| == |txs|
  {
    if ids == [] then txs
    else CancelMatching(CancelEach(txs, ids[..|ids| - 1], reason), ids[|ids| - 1], reason)
  }

  /** Recording N transactions with distinct identifiers and then
      cancelling M distinct ones of them leaves all N in the ledger and
      N - M of them active. */
  lemma {:induction false} CancelEachCount(txs: seq<Transaction>, ids: seq<string>, reason: string)
    requires UniqueTransactionIds(txs)
    requires forall i :: 0 <= i < |txs| ==> IsActive(txs[i])
    requires forall i, j :: 0 <= i < j < |ids| ==> ids[i] != ids[j]
    requires forall i :: 0 <= i < |ids| ==> FindTransaction(txs, ids[i]).Some?
    ensures |CancelEach(txs, ids, reason)| == |txs|
    ensures |Active(CancelEach(txs, ids, reason))| == |txs| - |ids|
    ensures forall i :: 0 <= i < |txs| ==>
      (IsActive(CancelEach(txs, ids, reason)[i]) <==> txs[i].id !in ids)
  {
    CancelEachActivity(txs, ids, reason);
    if ids == [] {
      AllActive(txs);
    } else {
      var init := ids[..|ids| - 1];
      var id := ids[|ids| - 1];
      assert forall i :: 0 <= i < |init| ==> init[i] == ids[i];
      CancelEachCount(txs, init, reason);
      var mid := CancelEach(txs, init, reason);
      CancelEachIds(txs, init, reason);
      var k := FindTransaction(txs, id).value;
      FindSameIds(txs, mid, id);
      assert id !in init;
      CancelLowersActiveCount(mid, id, reason, k);
    }
  }

  lemma {:induction false} CancelEachActivity(txs: seq<Transaction>, ids: seq<string>, reason: string)
    requires forall i :: 0 <= i < |txs| ==> IsActive(txs[i])
    ensures forall i :: 0 <= i < |txs| ==>
      (IsActive(CancelEach(txs, ids, reason)[i]) <==> txs[i].id !in ids)
  {
    if ids != [] {
      var init := ids[..|ids| - 1];
      var id := ids[|ids| - 1];
      assert ids == init + [id];
      CancelEachActivity(txs, init, reason);
      CancelEachIds(txs, init, reason);
      CancelActivity(CancelEach(txs, init, reason), id, reason);
    }
  }

  /** An entry is active after cancelling `id` iff it was active and has
      another identifier. */
  lemma CancelActivity(txs: seq<Transaction>, id: string, reason: string)
    ensures forall i :: 0 <= i < |txs| ==>
      (IsActive(CancelMatching(txs, id, reason)[i]) <==> IsActive(txs[i]) && txs[i].id != id)
  {
  }

  lemma {:induction false} CancelEachIds(txs: seq<Transaction>, ids: seq<string>, reason: string)
    ensures forall i :: 0 <= i < |txs| ==> CancelEach(txs, ids, reason)[i].id == txs[i].id
    ensures UniqueTransactionIds(txs) ==> UniqueTransactionIds(CancelEach(txs, ids, reason))
  {
    if ids != [] {
      CancelEachIds(txs, ids[..|ids| - 1], reason);
    }
  }

  lemma {:induction false} AllActive(txs: seq<Transaction>)
    requires forall i :: 0 <= i < |txs| ==> IsActive(txs[i])
    ensures Active(txs) == txs
  {
    if txs != [] {
      AllActive(txs[..|txs| - 1]);
    }
  }
}
