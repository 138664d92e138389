/**
 * The array operations the application builds its state updates from:
 * `filter`, `map` with a conditional replacement, `find`, a `Set`-based dedupe
 * and `reduce` as a sum. Each is defined once here and used by every module.
 */
module Lists {
  import opened Wrappers

  /** `a` is obtained from `b` by deleting elements (order is kept). */
  predicate IsSubsequence<T(==)>(a: seq<T>, b: seq<T>)
    decreases |b|
  {
    if a == [] then true
    else if b == [] then false
    else if a[0] == b[0] then IsSubsequence(a[1..], b[1..])
    else IsSubsequence(a, b[1..])
  }

  lemma {:induction false} SubsequenceOfTail<T>(a: seq<T>, b: seq<T>)
    requires b != [] && IsSubsequence(a, b[1..])
    ensures IsSubsequence(a, b)
    decreases |a| + |b|
  {
    if a != [] && a[0] == b[0] {
      SubsequenceDropFirst(a, b[1..]);
    }
  }

  lemma {:induction false} SubsequenceDropFirst<T>(a: seq<T>, b: seq<T>)
    requires a != [] && IsSubsequence(a, b)
    ensures IsSubsequence(a[1..], b)
    decreases |a| + |b|
  {
    assert b != [];
    if a[0] == b[0] {
      SubsequenceOfTail(a[1..], b);
    } else {
      SubsequenceDropFirst(a, b[1..]);
      SubsequenceOfTail(a[1..], b);
    }
  }

  lemma {:induction false} SubsequenceReflexive<T>(a: seq<T>)
    ensures IsSubsequence(a, a)
    decreases |a|
  {
    if a != [] {
      SubsequenceReflexive(a[1..]);
    }
  }

  /**
   * `Array.prototype.filter`: the result is a subsequence of `s` that holds every
   * occurrence of every kept element and nothing else.
   */
  function Filter<T(==,!new)>(s: seq<T>, keep: T -> bool): (r: seq<T>)
    ensures IsSubsequence(r, s)
    ensures forall x :: x in r <==> x in s && keep(x)
    decreases |s|
  {
    if s == [] then []
    else
      var rest := Filter(s[1..], keep);
      assert s == [s[0]] + s[1..];
      if keep(s[0]) then
        assert ([s[0]] + rest)[1..] == rest;
        [s[0]] + rest
      else
        SubsequenceOfTail(rest, s);
        rest
  }

  /** The filter keeps every occurrence of a kept element and no occurrence of the others. */
  lemma {:induction false} FilterMultiset<T(!new)>(s: seq<T>, keep: T -> bool)
    ensures forall x :: multiset(Filter(s, keep))[x] == if keep(x) then multiset(s)[x] else 0
    decreases |s|
  {
    if s != [] {
      FilterMultiset(s[1..], keep);
      assert s == [s[0]] + s[1..];
    }
  }

  /** A filter that keeps every element returns the list itself. */
  lemma {:induction false} FilterKeepsAll<T(!new)>(s: seq<T>, keep: T -> bool)
    requires forall i :: 0 <= i < |s| ==> keep(s[i])
    ensures Filter(s, keep) == s
    decreases |s|
  {
    if s != [] {
      FilterKeepsAll(s[1..], keep);
    }
  }

  lemma FilterIdempotent<T(!new)>(s: seq<T>, keep: T -> bool)
    ensures Filter(Filter(s, keep), keep) == Filter(s, keep)
  {
    var r := Filter(s, keep);
    assert forall i :: 0 <= i < |r| ==> r[i] in r;
    FilterKeepsAll(r, keep);
  }

  /** Filtering distributes over concatenation: the kept elements stay in their order. */
  lemma {:induction false} FilterConcat<T(!new)>(a: seq<T>, b: seq<T>, keep: T -> bool)
    ensures Filter(a + b, keep) == Filter(a, keep) + Filter(b, keep)
    decreases |a|
  {
    if a == [] {
      assert a + b == b;
    } else {
      assert (a + b)[0] == a[0] && (a + b)[1..] == a[1..] + b;
      FilterConcat(a[1..], b, keep);
    }
  }

  /** Filters by two predicates that agree on the list's elements give the same result. */
  lemma {:induction false} FilterAgree<T(!new)>(s: seq<T>, keep: T -> bool, keep2: T -> bool)
    requires forall i :: 0 <= i < |s| ==> keep(s[i]) == keep2(s[i])
    ensures Filter(s, keep) == Filter(s, keep2)
    decreases |s|
  {
    if s != [] {
      FilterAgree(s[1..], keep, keep2);
    }
  }

  /** `s.map(e => hit(e) ? f(e) : e)`: only the hit elements are rewritten. */
  function MapWhere<T>(s: seq<T>, hit: T -> bool, f: T -> T): (r: seq<T>)
    ensures |r| == |s|
    ensures forall i :: 0 <= i < |s| ==> r[i] == if hit(s[i]) then f(s[i]) else s[i]
  {
    seq(|s|, i requires 0 <= i < |s| => if hit(s[i]) then f(s[i]) else s[i])
  }

  /** The filter predicate `e => key(e) !== k`, named so that lemmas can refer to it. */
  function KeyIsNot<T, K(==)>(key: T -> K, k: K): T -> bool {
    x => key(x) != k
  }

  /** `s.filter(e => key(e) !== k)`: deletion by identifier, as the reducer and the screens do it. */
  function RemoveByKey<T(==,!new), K(==)>(s: seq<T>, key: T -> K, k: K): (r: seq<T>)
    ensures IsSubsequence(r, s)
    ensures forall x :: x in r <==> x in s && key(x) != k
    ensures (forall i :: 0 <= i < |s| ==> key(s[i]) != k) ==> r == s
  {
    var keep := KeyIsNot(key, k);
    if forall i :: 0 <= i < |s| ==> key(s[i]) != k then
      FilterKeepsAll(s, keep);
      Filter(s, keep)
    else
      Filter(s, keep)
  }

  /** Deleting by key keeps every occurrence of the other elements and none of the matching ones. */
  lemma RemoveByKeyCounts<T(!new), K>(s: seq<T>, key: T -> K, k: K)
    ensures forall x :: multiset(RemoveByKey(s, key, k))[x] == if key(x) != k then multiset(s)[x] else 0
  {
    FilterMultiset(s, KeyIsNot(key, k));
  }

  /** One step of the filter: the head is kept or dropped, the tail is filtered. */
  lemma FilterCons<T(!new)>(s: seq<T>, keep: T -> bool)
    requires s != []
    ensures Filter(s, keep) == if keep(s[0]) then [s[0]] + Filter(s[1..], keep) else Filter(s[1..], keep)
  {
  }

  /** Removing position `idx` from `s` is keeping the head and removing `idx - 1` from the tail. */
  lemma DropShift<T>(s: seq<T>, idx: nat)
    requires 0 < idx < |s|
    ensures s[..idx] + s[idx + 1..] == [s[0]] + (s[1..][..idx - 1] + s[1..][idx..])
  {
    assert s[..idx] == [s[0]] + s[1..][..idx - 1];
    assert s[idx + 1..] == s[1..][idx..];
  }

  /** When exactly one element is dropped by the filter, the result is the list without it. */
  lemma {:induction false} FilterDropsOne<T(!new)>(s: seq<T>, keep: T -> bool, idx: nat)
    requires idx < |s| && !keep(s[idx])
    requires forall i :: 0 <= i < |s| && i != idx ==> keep(s[i])
    ensures Filter(s, keep) == s[..idx] + s[idx + 1..]
    decreases idx
  {
    var tail := s[1..];
    assert forall i :: 0 <= i < |tail| ==> tail[i] == s[i + 1];
    FilterCons(s, keep);
    if idx == 0 {
      FilterKeepsAll(tail, keep);
    } else {
      FilterDropsOne(tail, keep, idx - 1);
      DropShift(s, idx);
    }
  }

  /** When exactly one element carries key `k`, deleting by `k` drops just that element. */
  lemma RemoveByKeyOne<T(!new), K>(s: seq<T>, key: T -> K, k: K, idx: nat)
    requires idx < |s| && key(s[idx]) == k
    requires forall i :: 0 <= i < |s| && i != idx ==> key(s[i]) != k
    ensures RemoveByKey(s, key, k) == s[..idx] + s[idx + 1..]
  {
    FilterDropsOne(s, KeyIsNot(key, k), idx);
  }

  lemma RemoveByKeyIdempotent<T(!new), K>(s: seq<T>, key: T -> K, k: K)
    ensures RemoveByKey(RemoveByKey(s, key, k), key, k) == RemoveByKey(s, key, k)
  {
    var r := RemoveByKey(s, key, k);
    assert forall i :: 0 <= i < |r| ==> r[i] in r;
  }

  /** `s.map(e => key(e) === key(x) ? x : e)`: replacement by identifier. */
  function ReplaceByKey<T, K(==)>(s: seq<T>, key: T -> K, x: T): (r: seq<T>)
    ensures |r| == |s|
    ensures forall i :: 0 <= i < |s| && key(s[i]) == key(x) ==> r[i] == x
    ensures forall i :: 0 <= i < |s| && key(s[i]) != key(x) ==> r[i] == s[i]
  {
    MapWhere(s, e => key(e) == key(x), _ => x)
  }

  lemma ReplaceByKeyIdempotent<T, K>(s: seq<T>, key: T -> K, x: T)
    ensures ReplaceByKey(ReplaceByKey(s, key, x), key, x) == ReplaceByKey(s, key, x)
  {
  }

  /** `s.find(e => key(e) === k)`: the first element with key `k`, if any. */
  function Find<T(==), K(==)>(s: seq<T>, key: T -> K, k: K): (r: Option<T>)
    ensures r.None? <==> forall i :: 0 <= i < |s| ==> key(s[i]) != k
    ensures r.Some? ==> exists i :: 0 <= i < |s| && s[i] == r.value && key(s[i]) == k &&
                                   forall j :: 0 <= j < i ==> key(s[j]) != k
    decreases |s|
  {
    if s == [] then None
    else if key(s[0]) == k then Some(s[0])
    else
      var r := Find(s[1..], key, k);
      assert forall i :: 1 <= i < |s| ==> s[i] == s[1..][i - 1];
      if r.Some? then
        var i :| 0 <= i < |s[1..]| && s[1..][i] == r.value && key(s[1..][i]) == k &&
                 forall j :: 0 <= j < i ==> key(s[1..][j]) != k;
        assert s[i + 1] == r.value && forall j :: 0 <= j < i + 1 ==> key(s[j]) != k;
        r
      else r
  }

  /** The index of the first occurrence of `x` in `s`. */
  function FirstIndex<T(==)>(s: seq<T>, x: T): (i: nat)
    requires x in s
    ensures i < |s| && s[i] == x
    ensures forall j :: 0 <= j < i ==> s[j] != x
  {
    if s[0] == x then 0 else 1 + FirstIndex(s[1..], x)
  }

  predicate Distinct<T(==)>(s: seq<T>) {
    forall i, j :: 0 <= i < j < |s| ==> s[i] != s[j]
  }

  /**
   * `[...new Set(s)]`: every element of `s` exactly once, in the order of first occurrence.
   */
  function Dedupe<T(==,!new)>(s: seq<T>): (r: seq<T>)
    ensures Distinct(r)
    ensures forall x :: x in r <==> x in s
    ensures forall i, j :: 0 <= i < j < |r| ==> FirstIndex(s, r[i]) < FirstIndex(s, r[j])
    decreases |s|
  {
    if s == [] then []
    else
      var init := s[..|s| - 1];
      var last := s[|s| - 1];
      var d := Dedupe(init);
      assert s == init + [last];
      FirstIndexExtend(init, last);
      if last in d then d else d + [last]
  }

  lemma FirstIndexExtend<T>(init: seq<T>, last: T)
    ensures forall y :: y in init ==> FirstIndex(init + [last], y) == FirstIndex(init, y)
    ensures last !in init ==> FirstIndex(init + [last], last) == |init|
  {
    var s := init + [last];
    forall y | y in init
      ensures FirstIndex(s, y) == FirstIndex(init, y)
    {
      var a, b := FirstIndex(s, y), FirstIndex(init, y);
      assert s[b] == y;
      assert init[a] == y || a >= |init|;
    }
  }

  /** `s.reduce((sum, e) => sum + f(e), 0)` over money. */
  function Sum<T>(s: seq<T>, f: T -> real): real
    decreases |s|
  {
    if s == [] then 0.0 else Sum(s[..|s| - 1], f) + f(s[|s| - 1])
  }

  lemma {:induction false} SumConcat<T>(a: seq<T>, b: seq<T>, f: T -> real)
    ensures Sum(a + b, f) == Sum(a, f) + Sum(b, f)
    decreases |b|
  {
    if b != [] {
      assert (a + b)[..|a + b| - 1] == a + b[..|b| - 1];
      SumConcat(a, b[..|b| - 1], f);
    } else {
      assert a + b == a;
    }
  }

  /** Replacing one element changes the sum by the difference of the two values. */
  lemma {:induction false} SumUpdate<T>(s: seq<T>, k: nat, x: T, f: T -> real)
    requires k < |s|
    ensures Sum(s[k := x], f) == Sum(s, f) - f(s[k]) + f(x)
    decreases |s|
  {
    var n := |s| - 1;
    if k < n {
      assert s[k := x][..n] == s[..n][k := x];
      SumUpdate(s[..n], k, x, f);
    } else {
      assert s[k := x][..n] == s[..n];
    }
  }

  /** Sums of two functions that agree on the list are equal. */
  lemma {:induction false} SumAgree<T>(s: seq<T>, f: T -> real, g: T -> real)
    requires forall i :: 0 <= i < |s| ==> f(s[i]) == g(s[i])
    ensures Sum(s, f) == Sum(s, g)
    decreases |s|
  {
    if s != [] {
      SumAgree(s[..|s| - 1], f, g);
    }
  }

  /** Raising the value of one element that occurs once raises the sum by as much. */
  lemma {:induction false} SumBump<T>(s: seq<T>, f: T -> real, g: T -> real, k: T, d: real)
    requires Distinct(s) && k in s
    requires f(k) == g(k) + d
    requires forall i :: 0 <= i < |s| && s[i] != k ==> f(s[i]) == g(s[i])
    ensures Sum(s, f) == Sum(s, g) + d
    decreases |s|
  {
    var n := |s| - 1;
    if s[n] == k {
      assert forall i :: 0 <= i < n ==> s[..n][i] != k;
      SumAgree(s[..n], f, g);
    } else {
      assert k in s[..n] by {
        var i :| 0 <= i < |s| && s[i] == k;
        assert s[..n][i] == k;
      }
      SumBump(s[..n], f, g, k, d);
    }
  }

  /** The same fold over whole numbers (quantities, order counts). */
  function Count<T>(s: seq<T>, f: T -> int): int
    decreases |s|
  {
    if s == [] then 0 else Count(s[..|s| - 1], f) + f(s[|s| - 1])
  }

  lemma {:induction false} CountConcat<T>(a: seq<T>, b: seq<T>, f: T -> int)
    ensures Count(a + b, f) == Count(a, f) + Count(b, f)
    decreases |b|
  {
    if b != [] {
      assert (a + b)[..|a + b| - 1] == a + b[..|b| - 1];
      CountConcat(a, b[..|b| - 1], f);
    } else {
      assert a + b == a;
    }
  }

  lemma {:induction false} CountAgree<T>(s: seq<T>, f: T -> int, g: T -> int)
    requires forall i :: 0 <= i < |s| ==> f(s[i]) == g(s[i])
    ensures Count(s, f) == Count(s, g)
    decreases |s|
  {
    if s != [] {
      CountAgree(s[..|s| - 1], f, g);
    }
  }

  lemma {:induction false} CountBump<T>(s: seq<T>, f: T -> int, g: T -> int, k: T, d: int)
    requires Distinct(s) && k in s
    requires f(k) == g(k) + d
    requires forall i :: 0 <= i < |s| && s[i] != k ==> f(s[i]) == g(s[i])
    ensures Count(s, f) == Count(s, g) + d
    decreases |s|
  {
    var n := |s| - 1;
    if s[n] == k {
      assert forall i :: 0 <= i < n ==> s[..n][i] != k;
      CountAgree(s[..n], f, g);
    } else {
      assert k in s[..n] by {
        var i :| 0 <= i < |s| && s[i] == k;
        assert s[..n][i] == k;
      }
      CountBump(s[..n], f, g, k, d);
    }
  }

  /** `s.slice(0, n)`. */
  function Take<T>(s: seq<T>, n: nat): (r: seq<T>)
    ensures |r| == if n < |s| then n else |s|
    ensures forall i :: 0 <= i < |r| ==> r[i] == s[i]
  {
    if n < |s| then s[..n] else s
  }
}
