/** `Array.prototype.sort` with a comparator `b.k - a.k`: a stable sort into
    non-increasing order of an integer key, and the `slice(0, n)` that keeps
    the head of the result. */
module Sorting {
  import opened Seqs

  ghost predicate SortedDesc<T>(s: seq<T>, key: T -> int)
  {
    forall i, j :: 0 <= i < j < |s| ==> key(s[i]) >= key(s[j])
  }

  function KeyEq<T>(key: T -> int, v: int): T -> bool
  {
    (x: T) => key(x) == v
  }

  /** `x` placed before the first element whose key is not greater. */
  function Insert<T>(x: T, s: seq<T>, key: T -> int): (r: seq<T>)
    ensures |r| == |s| + 1
  {
    if s == [] then [x]
    else if key(s[0]) <= key(x) then [x] + s
    else [s[0]] + Insert(x, s[1..], key)
  }

  /** Stable descending sort: each element inserted ahead of the sorted
      rest, so of two equal keys the earlier element stays first. */
  function SortDesc<T>(s: seq<T>, key: T -> int): (r: seq<T>)
    ensures |r| == |s|
  {
    if s == [] then [] else Insert(s[0], SortDesc(s[1..], key), key)
  }

  lemma {:induction false} InsertSorted<T>(x: T, s: seq<T>, key: T -> int)
    requires SortedDesc(s, key)
    ensures SortedDesc(Insert(x, s, key), key)
    ensures multiset(Insert(x, s, key)) == multiset(s) + multiset{x}
  {
    InsertPermutes(x, s, key);
    if s == [] {
    } else if key(s[0]) <= key(x) {
      SortedCons(x, s, key);
    } else {
      var rest := Insert(x, s[1..], key);
      InsertSorted(x, s[1..], key);
      InsertBounded(x, s[1..], key, key(s[0]));
      SortedCons(s[0], rest, key);
      assert Insert(x, s, key) == [s[0]] + rest;
    }
  }

  /** An element no smaller than every key of a sorted sequence may head it. */
  lemma SortedCons<T>(h: T, t: seq<T>, key: T -> int)
    requires SortedDesc(t, key)
    requires t == [] || key(t[0]) <= key(h) || forall i :: 0 <= i < |t| ==> key(t[i]) <= key(h)
    ensures SortedDesc([h] + t, key)
  {
    assert forall i :: 0 < i < |[h] + t| ==> ([h] + t)[i] == t[i - 1];
  }

  lemma {:induction false} InsertPermutes<T>(x: T, s: seq<T>, key: T -> int)
    ensures multiset(Insert(x, s, key)) == multiset(s) + multiset{x}
  {
    if s != [] && key(s[0]) > key(x) {
      InsertPermutes(x, s[1..], key);
      assert s == [s[0]] + s[1..];
    }
  }

  /** A bound on every key survives an insertion within it. */
  lemma {:induction false} InsertBounded<T>(x: T, s: seq<T>, key: T -> int, b: int)
    requires key(x) <= b && forall i :: 0 <= i < |s| ==> key(s[i]) <= b
    ensures forall i :: 0 <= i < |Insert(x, s, key)| ==> key(Insert(x, s, key)[i]) <= b
  {
    if s != [] && key(s[0]) > key(x) {
      InsertBounded(x, s[1..], key, b);
      assert Insert(x, s, key) == [s[0]] + Insert(x, s[1..], key);
    }
  }

  /** Among the elements with any one key, inserting keeps their order
      and puts `x` first. */
  lemma {:induction false} InsertStable<T>(x: T, s: seq<T>, key: T -> int, v: int)
    ensures Filter(Insert(x, s, key), KeyEq(key, v)) ==
      (if key(x) == v then [x] else []) + Filter(s, KeyEq(key, v))
  {
    var p := KeyEq(key, v);
    if s == [] {
      FilterSingleton(x, p);
    } else if key(s[0]) <= key(x) {
      FilterCons(x, s, p);
    } else {
      var rest := Insert(x, s[1..], key);
      InsertStable(x, s[1..], key, v);
      assert Insert(x, s, key) == [s[0]] + rest;
      FilterCons(s[0], rest, p);
      assert s == [s[0]] + s[1..];
      FilterCons(s[0], s[1..], p);
      if key(x) == v {
        assert !p(s[0]);
      } else {
        assert Filter(rest, p) == Filter(s[1..], p);
      }
    }
  }

  lemma {:induction false} InsertSum<T>(x: T, s: seq<T>, key: T -> int, f: T -> int)
    ensures Sum(Insert(x, s, key), f) == f(x) + Sum(s, f)
  {
    if s == [] {
      SumCons(x, [], f);
      assert [x] + [] == [x];
    } else if key(s[0]) <= key(x) {
      SumCons(x, s, f);
    } else {
      InsertSum(x, s[1..], key, f);
      SumCons(s[0], Insert(x, s[1..], key), f);
      SumCons(s[0], s[1..], f);
      assert s == [s[0]] + s[1..];
    }
  }

  /** The sort yields a non-increasing permutation of its input. */
  lemma {:induction false} SortDescPermutes<T>(s: seq<T>, key: T -> int)
    ensures SortedDesc(SortDesc(s, key), key)
    ensures multiset(SortDesc(s, key)) == multiset(s)
  {
    if s != [] {
      SortDescPermutes(s[1..], key);
      InsertSorted(s[0], SortDesc(s[1..], key), key);
      assert s == [s[0]] + s[1..];
    }
  }

  /** The sort neither loses nor invents an element. */
  lemma SortDescMembers<T>(s: seq<T>, key: T -> int)
    ensures forall x :: x in SortDesc(s, key) <==> x in s
  {
    SortDescPermutes(s, key);
    forall x ensures x in SortDesc(s, key) <==> x in s {
      assert x in SortDesc(s, key) <==> x in multiset(SortDesc(s, key));
      assert x in s <==> x in multiset(s);
    }
  }

  /** The elements with any one key keep their input order. */
  lemma {:induction false} SortDescStable<T>(s: seq<T>, key: T -> int, v: int)
    ensures Filter(SortDesc(s, key), KeyEq(key, v)) == Filter(s, KeyEq(key, v))
  {
    if s != [] {
      SortDescStable(s[1..], key, v);
      InsertStable(s[0], SortDesc(s[1..], key), key, v);
      FilterCons(s[0], s[1..], KeyEq(key, v));
      assert s == [s[0]] + s[1..];
    }
  }

  /** Every sum over the elements is unchanged by the sort. */
  lemma {:induction false} SortDescSum<T>(s: seq<T>, key: T -> int, f: T -> int)
    ensures Sum(SortDesc(s, key), f) == Sum(s, f)
  {
    if s != [] {
      SortDescSum(s[1..], key, f);
      InsertSum(s[0], SortDesc(s[1..], key), key, f);
      SumCons(s[0], s[1..], f);
      assert s == [s[0]] + s[1..];
    }
  }

  /** The first `n` elements of the sorted sequence (`slice(0, n)`). */
  function Top<T>(s: seq<T>, key: T -> int, n: nat): (r: seq<T>)
    ensures |r| == if |s| < n then |s| else n
  {
    var sorted := SortDesc(s, key);
    sorted[..if |sorted| < n then |sorted| else n]
  }

  /** The head keeps the order of the sort, and no element left out has a
      greater key than the last element kept. */
  lemma TopCorrect<T>(s: seq<T>, key: T -> int, n: nat)
    ensures SortedDesc(Top(s, key, n), key)
    ensures multiset(Top(s, key, n)) <= multiset(s)
    ensures |Top(s, key, n)| > 0 ==>
      forall x | x in s && x !in Top(s, key, n) :: key(x) <= key(Top(s, key, n)[|Top(s, key, n)| - 1])
  {
    var sorted := SortDesc(s, key);
    var top := Top(s, key, n);
    SortDescPermutes(s, key);
    assert sorted == top + sorted[|top|..];
    assert multiset(sorted) == multiset(top) + multiset(sorted[|top|..]);
    if |top| > 0 {
      assert forall x :: x in s ==> x in multiset(sorted);
      TailBelowHead(sorted, |top|, key);
    }
  }

  /** In a non-increasing sequence nothing outside a non-empty prefix has a
      greater key than the prefix's last element. */
  lemma TailBelowHead<T>(sorted: seq<T>, m: nat, key: T -> int)
    requires SortedDesc(sorted, key) && 0 < m <= |sorted|
    ensures forall x | x in sorted && x !in sorted[..m] :: key(x) <= key(sorted[m - 1])
  {
    forall x | x in sorted && x !in sorted[..m] ensures key(x) <= key(sorted[m - 1]) {
      var i :| 0 <= i < |sorted| && sorted[i] == x;
    }
  }
}
