/** The group-by reducers of the reports: walking (key, amount) pairs in
    order, the first pair with a new key opens a group at the end, and every
    later pair with that key adds its amount and one to the group's count. */
module Grouping {
  import opened Types
  import opened Seqs

  datatype Group<K> = Group(key: K, total: int, count: int)

  /** Index of the group with key `k` (the reducer's `acc.find`). */
  function FindGroup<K(==)>(groups: seq<Group<K>>, k: K): (r: Option<nat>)
    ensures r.None? <==> forall i :: 0 <= i < |groups| ==> groups[i].key != k
    ensures r.Some? ==> r.value < |groups| && groups[r.value].key == k
                        && forall j :: 0 <= j < r.value ==> groups[j].key != k
  {
    if groups == [] then None
    else if groups[0].key == k then Some(0)
    else match FindGroup(groups[1..], k)
      case None => None
      case Some(j) => Some(j + 1)
  }

  /** One step of the reducer. */
  function AddTo<K(==)>(groups: seq<Group<K>>, key: K, amount: int): (r: seq<Group<K>>)
  {
    match FindGroup(groups, key)
    case None => groups + [Group(key, amount, 1)]
    case Some(j) => groups[j := groups[j].(total := groups[j].total + amount, count := groups[j].count + 1)]
  }

  /** The groups of a sequence of (key, amount) pairs. */
  function Grouped<K(==)>(pairs: seq<(K, int)>): seq<Group<K>>
  {
    if pairs == [] then []
    else AddTo(Grouped(pairs[..|pairs| - 1]), pairs[|pairs| - 1].0, pairs[|pairs| - 1].1)
  }

  /** The reducer as the loop it is: the accumulator gains a group or has
      one group's total and count raised, pair by pair. */
  method GroupSums<K(==)>(pairs: seq<(K, int)>) returns (groups: seq<Group<K>>)
    ensures groups == Grouped(pairs)
    ensures Distinct(groups)
    ensures forall k :: FindGroup(groups, k).Some? <==> KeyOccurs(pairs, k)
  {
    groups := [];
    var i := 0;
    while i < |pairs|
      invariant 0 <= i <= |pairs|
      invariant groups == Grouped(pairs[..i])
    {
      assert pairs[..i + 1][..i] == pairs[..i];
      var (key, amount) := pairs[i];
      ghost var before := groups;
      var found := FindGroup(groups, key);
      if found.Some? {
        var j := found.value;
        groups := groups[j := groups[j].(total := groups[j].total + amount, count := groups[j].count + 1)];
      } else {
        groups := groups + [Group(key, amount, 1)];
      }
      assert groups == AddTo(before, key, amount);
      i := i + 1;
    }
    assert pairs[..i] == pairs;
    GroupedKeys(pairs);
  }

  ghost predicate Distinct<K>(groups: seq<Group<K>>)
  {
    forall i, j :: 0 <= i < j < |groups| ==> groups[i].key != groups[j].key
  }

  predicate KeyOccurs<K(==)>(pairs: seq<(K, int)>, k: K)
  {
    exists i :: 0 <= i < |pairs| && pairs[i].0 == k
  }

  function KeyIs<K(==)>(k: K): ((K, int)) -> bool
  {
    (p: (K, int)) => p.0 == k
  }

  function PairAmount<K>(p: (K, int)): int
  {
    p.1
  }

  function Count<K>(g: Group<K>): int
  {
    g.count
  }

  function GroupTotal<K>(g: Group<K>): int
  {
    g.total
  }

  /** One group per key that occurs, each key once, every count positive. */
  lemma {:induction false} GroupedKeys<K>(pairs: seq<(K, int)>)
    ensures Distinct(Grouped(pairs))
    ensures forall k :: FindGroup(Grouped(pairs), k).Some? <==> KeyOccurs(pairs, k)
    ensures forall j :: 0 <= j < |Grouped(pairs)| ==> Grouped(pairs)[j].count >= 1
  {
    if pairs != [] {
      var init := pairs[..|pairs| - 1];
      var last := pairs[|pairs| - 1];
      assert pairs == init + [last];
      GroupedKeys(init);
      AddToKeys(Grouped(init), last.0, last.1);
      forall k ensures KeyOccurs(pairs, k) <==> KeyOccurs(init, k) || k == last.0 {
        KeyOccursAppend(init, last, k);
      }
    }
  }

  lemma KeyOccursAppend<K>(pairs: seq<(K, int)>, p: (K, int), k: K)
    ensures KeyOccurs(pairs + [p], k) <==> KeyOccurs(pairs, k) || p.0 == k
  {
    if KeyOccurs(pairs + [p], k) && p.0 != k {
      var i :| 0 <= i < |pairs + [p]| && (pairs + [p])[i].0 == k;
      assert pairs[i].0 == k;
    }
    if KeyOccurs(pairs, k) {
      var i :| 0 <= i < |pairs| && pairs[i].0 == k;
      assert (pairs + [p])[i].0 == k;
    }
    assert (pairs + [p])[|pairs|] == p;
  }

  /** A reducer step keeps keys distinct and counts positive, and adds its
      own key to the keys found. */
  lemma AddToKeys<K>(groups: seq<Group<K>>, key: K, amount: int)
    requires Distinct(groups) && forall j :: 0 <= j < |groups| ==> groups[j].count >= 1
    ensures var r := AddTo(groups, key, amount);
      Distinct(r) && (forall j :: 0 <= j < |r| ==> r[j].count >= 1) &&
      forall k :: FindGroup(r, k).Some? <==> FindGroup(groups, k).Some? || k == key
  {
    forall k ensures FindGroup(AddTo(groups, key, amount), k).Some? <==> FindGroup(groups, k).Some? || k == key {
      AddToFind(groups, key, amount, k);
    }
    var r := AddTo(groups, key, amount);
    match FindGroup(groups, key)
    case None =>
      assert r == groups + [Group(key, amount, 1)];
    case Some(j) =>
      assert forall i :: 0 <= i < |groups| ==> r[i].key == groups[i].key;
  }

  /** A group's total is the sum of the amounts paired with its key and
      its count is the number of those pairs. */
  lemma {:induction false} GroupedTotals<K>(pairs: seq<(K, int)>, k: K)
    ensures match FindGroup(Grouped(pairs), k)
      case None => MaskedSum(pairs, KeyIs(k), One) == 0 && MaskedSum(pairs, KeyIs(k), PairAmount) == 0
      case Some(j) =>
        Grouped(pairs)[j].total == MaskedSum(pairs, KeyIs(k), PairAmount) &&
        Grouped(pairs)[j].count == MaskedSum(pairs, KeyIs(k), One)
  {
    if pairs != [] {
      var init := pairs[..|pairs| - 1];
      var last := pairs[|pairs| - 1];
      GroupedTotals(init, k);
      AddToFind(Grouped(init), last.0, last.1, k);
    }
  }

  /** The group a pair with key `k` ends up in: a new group for a new key,
      the existing one with the pair added otherwise. */
  function Accumulated<K(==)>(groups: seq<Group<K>>, k: K, amount: int): Group<K>
  {
    match FindGroup(groups, k)
    case None => Group(k, amount, 1)
    case Some(j) => groups[j].(total := groups[j].total + amount, count := groups[j].count + 1)
  }

  /** One reducer step seen from key `k`: another key's group is found at
      the same place unchanged; the step's own key is found with the pair
      accumulated. */
  lemma AddToFind<K>(groups: seq<Group<K>>, key: K, amount: int, k: K)
    ensures var r := AddTo(groups, key, amount);
      |r| >= |groups| &&
      (key != k ==> FindGroup(r, k) == FindGroup(groups, k) &&
                    (FindGroup(groups, k).Some? ==> r[FindGroup(groups, k).value] == groups[FindGroup(groups, k).value])) &&
      (key == k ==> FindGroup(r, k).Some? && r[FindGroup(r, k).value] == Accumulated(groups, k, amount))
  {
    var r := AddTo(groups, key, amount);
    match FindGroup(groups, key)
    case None =>
      FindGroupAppend(groups, Group(key, amount, 1), k);
    case Some(j) =>
      assert forall i :: 0 <= i < |groups| ==> r[i].key == groups[i].key;
      FindGroupSameKeys(groups, r, k);
  }

  lemma {:induction false} FindGroupAppend<K>(groups: seq<Group<K>>, n: Group<K>, k: K)
    ensures FindGroup(groups + [n], k) ==
      (if FindGroup(groups, k).Some? then FindGroup(groups, k)
       else if n.key == k then Some(|groups|) else None)
  {
    if groups != [] {
      assert (groups + [n])[1..] == groups[1..] + [n];
      FindGroupAppend(groups[1..], n, k);
    }
  }

  lemma {:induction false} FindGroupSameKeys<K>(a: seq<Group<K>>, b: seq<Group<K>>, k: K)
    requires |a| == |b| && forall i :: 0 <= i < |a| ==> a[i].key == b[i].key
    ensures FindGroup(a, k) == FindGroup(b, k)
  {
    if a != [] {
      FindGroupSameKeys(a[1..], b[1..], k);
    }
  }

  /** The counts add up to the number of pairs and the totals to the sum
      of the amounts. */
  lemma {:induction false} GroupedSums<K>(pairs: seq<(K, int)>)
    ensures Sum(Grouped(pairs), Count) == |pairs|
    ensures Sum(Grouped(pairs), GroupTotal) == Sum(pairs, PairAmount)
  {
    if pairs != [] {
      var init := pairs[..|pairs| - 1];
      var last := pairs[|pairs| - 1];
      GroupedSums(init);
      AddToSums(Grouped(init), last.0, last.1);
    }
  }

  /** A reducer step adds one to the counts and the amount to the totals. */
  lemma AddToSums<K>(groups: seq<Group<K>>, key: K, amount: int)
    ensures Sum(AddTo(groups, key, amount), Count) == Sum(groups, Count) + 1
    ensures Sum(AddTo(groups, key, amount), GroupTotal) == Sum(groups, GroupTotal) + amount
  {
    match FindGroup(groups, key)
    case None =>
      var n := Group(key, amount, 1);
      SumAppend(groups, [n], Count);
      SumAppend(groups, [n], GroupTotal);
      SumSingleton(n, Count);
      SumSingleton(n, GroupTotal);
    case Some(j) =>
      var n := groups[j].(total := groups[j].total + amount, count := groups[j].count + 1);
      SumUpdate(groups, j, n, Count);
      SumUpdate(groups, j, n, GroupTotal);
  }

  /** Index of the first pair with key `k`. */
  function FirstIndex<K(==)>(pairs: seq<(K, int)>, k: K): nat
  {
    if pairs == [] || pairs[0].0 == k then 0 else 1 + FirstIndex(pairs[1..], k)
  }

  lemma {:induction false} FirstIndexAppend<K>(pairs: seq<(K, int)>, p: (K, int), k: K)
    ensures KeyOccurs(pairs, k) ==> FirstIndex(pairs + [p], k) == FirstIndex(pairs, k) < |pairs|
    ensures !KeyOccurs(pairs, k) ==> FirstIndex(pairs + [p], k) == |pairs| + (if p.0 == k then 0 else 1)
  {
    if pairs != [] {
      assert (pairs + [p])[1..] == pairs[1..] + [p];
      FirstIndexAppend(pairs[1..], p, k);
      if pairs[0].0 != k {
        if KeyOccurs(pairs, k) {
          var i :| 0 <= i < |pairs| && pairs[i].0 == k;
          assert pairs[1..][i - 1].0 == k;
        }
        if KeyOccurs(pairs[1..], k) {
          var i :| 0 <= i < |pairs[1..]| && pairs[1..][i].0 == k;
          assert pairs[i + 1].0 == k;
        }
      } else {
        assert pairs[0].0 == k;
      }
    }
  }

  ghost predicate InFirstAppearanceOrder<K>(pairs: seq<(K, int)>, groups: seq<Group<K>>)
  {
    forall i, j :: 0 <= i < j < |groups| ==> FirstIndex(pairs, groups[i].key) < FirstIndex(pairs, groups[j].key)
  }

  /** Groups appear in the order in which their keys first appear. */
  lemma {:induction false} GroupedInFirstAppearanceOrder<K>(pairs: seq<(K, int)>)
    ensures InFirstAppearanceOrder(pairs, Grouped(pairs))
  {
    if pairs != [] {
      var init := pairs[..|pairs| - 1];
      var last := pairs[|pairs| - 1];
      assert pairs == init + [last];
      GroupedInFirstAppearanceOrder(init);
      GroupedKeys(init);
      var g := Grouped(init);
      FirstIndicesKept(init, last, g);
      match FindGroup(g, last.0)
      case None =>
        OrderAfterNewGroup(init, last, g);
      case Some(k) =>
        var r := AddTo(g, last.0, last.1);
        assert forall i :: 0 <= i < |g| ==> r[i].key == g[i].key;
    }
  }

  /** Appending a pair leaves the first appearance of every grouped key. */
  lemma FirstIndicesKept<K>(pairs: seq<(K, int)>, p: (K, int), groups: seq<Group<K>>)
    requires forall k :: FindGroup(groups, k).Some? <==> KeyOccurs(pairs, k)
    ensures forall i :: 0 <= i < |groups| ==>
      FirstIndex(pairs + [p], groups[i].key) == FirstIndex(pairs, groups[i].key) < |pairs|
  {
    forall i | 0 <= i < |groups|
      ensures FirstIndex(pairs + [p], groups[i].key) == FirstIndex(pairs, groups[i].key) < |pairs|
    {
      assert FindGroup(groups, groups[i].key).Some?;
      FirstIndexAppend(pairs, p, groups[i].key);
    }
  }

  /** A pair with a new key opens the last group, whose key first appears
      after all others. */
  lemma OrderAfterNewGroup<K>(pairs: seq<(K, int)>, p: (K, int), groups: seq<Group<K>>)
    requires forall k :: FindGroup(groups, k).Some? <==> KeyOccurs(pairs, k)
    requires InFirstAppearanceOrder(pairs, groups)
    requires FindGroup(groups, p.0).None?
    requires forall i :: 0 <= i < |groups| ==>
      FirstIndex(pairs + [p], groups[i].key) == FirstIndex(pairs, groups[i].key) < |pairs|
    ensures InFirstAppearanceOrder(pairs + [p], groups + [Group(p.0, p.1, 1)])
  {
    var r := groups + [Group(p.0, p.1, 1)];
    FirstIndexAppend(pairs, p, p.0);
    forall i, j | 0 <= i < j < |r| ensures FirstIndex(pairs + [p], r[i].key) < FirstIndex(pairs + [p], r[j].key) {
      if j == |groups| {
        assert r[j].key == p.0;
      } else {
        assert FirstIndex(pairs, groups[i].key) < FirstIndex(pairs, groups[j].key);
      }
    }
  }

  /** With distinct keys, each group is the one found for its key. */
  lemma FindGroupDistinct<K>(groups: seq<Group<K>>, j: nat)
    requires Distinct(groups) && j < |groups|
    ensures FindGroup(groups, groups[j].key) == Some(j)
  {
  }

  /** The total and count of the group at any position of the result. */
  lemma GroupedAt<K>(pairs: seq<(K, int)>, j: nat)
    requires j < |Grouped(pairs)|
    ensures var g := Grouped(pairs)[j];
      g.count >= 1 &&
      g.total == MaskedSum(pairs, KeyIs(g.key), PairAmount) &&
      g.count == MaskedSum(pairs, KeyIs(g.key), One)
  {
    GroupedKeys(pairs);
    FindGroupDistinct(Grouped(pairs), j);
    GroupedTotals(pairs, Grouped(pairs)[j].key);
  }

  /** Every group's total, position by position. */
  lemma GroupedTotalsAt<K>(pairs: seq<(K, int)>)
    ensures forall j :: 0 <= j < |Grouped(pairs)| ==>
      Grouped(pairs)[j].total == MaskedSum(pairs, KeyIs(Grouped(pairs)[j].key), PairAmount)
  {
    forall j | 0 <= j < |Grouped(pairs)|
      ensures Grouped(pairs)[j].total == MaskedSum(pairs, KeyIs(Grouped(pairs)[j].key), PairAmount)
    {
      GroupedAt(pairs, j);
    }
  }

  /** A suffix of the groups keeps distinct keys, first-appearance order
      and every total. */
  lemma SuffixGroups<K>(pairs: seq<(K, int)>, groups: seq<Group<K>>, from: nat)
    requires from <= |groups| && Distinct(groups) && InFirstAppearanceOrder(pairs, groups)
    requires forall j :: 0 <= j < |groups| ==> groups[j].total == MaskedSum(pairs, KeyIs(groups[j].key), PairAmount)
    ensures Distinct(groups[from..]) && InFirstAppearanceOrder(pairs, groups[from..])
    ensures forall j :: 0 <= j < |groups| - from ==>
      groups[from..][j].total == MaskedSum(pairs, KeyIs(groups[from..][j].key), PairAmount)
  {
    var d := groups[from..];
    assert forall j :: 0 <= j < |d| ==> d[j] == groups[from + j];
  }

  function HasKey<K(==)>(k: K): Group<K> -> int
  {
    (g: Group<K>) => if g.key == k then 1 else 0
  }

  /** With distinct keys, exactly one group has a key that occurs and none
      has any other key. */
  lemma {:induction false} OneGroupPerKey<K>(groups: seq<Group<K>>, k: K)
    requires Distinct(groups)
    ensures Sum(groups, HasKey(k)) == if FindGroup(groups, k).Some? then 1 else 0
  {
    if groups != [] {
      var init := groups[..|groups| - 1];
      var last := groups[|groups| - 1];
      assert groups == init + [last];
      OneGroupPerKey(init, k);
      FindGroupAppend(init, last, k);
    }
  }
}
