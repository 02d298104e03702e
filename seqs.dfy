/** The array operations the handlers lean on: `find`/`findIndex`, `filter`
    and a stable `sort` with a numeric comparator. */
module Seqs {

  /** Index of the first element satisfying `f`, or -1 when none does. */
  function FirstIndex<T>(s: seq<T>, f: T -> bool): (k: int)
    ensures -1 <= k < |s|
    ensures 0 <= k ==> f(s[k]) && forall i :: 0 <= i < k ==> !f(s[i])
    ensures k == -1 <==> forall i :: 0 <= i < |s| ==> !f(s[i])
  {
    if s == [] then -1
    else if f(s[0]) then 0
    else
      var k := FirstIndex(s[1..], f);
      assert forall i :: 0 < i < |s| ==> s[i] == s[1..][i - 1];
      if k < 0 then -1 else k + 1
  }

  /** Appending an element does not move a match that already exists, and
      otherwise the new element is found if it matches. */
  lemma {:induction false} FirstIndexAppend<T>(s: seq<T>, x: T, f: T -> bool)
    ensures FirstIndex(s, f) >= 0 ==> FirstIndex(s + [x], f) == FirstIndex(s, f)
    ensures FirstIndex(s, f) < 0 ==> FirstIndex(s + [x], f) == (if f(x) then |s| else -1)
  {
    var t := s + [x];
    assert forall i :: 0 <= i < |s| ==> t[i] == s[i];
    assert t[|s|] == x;
  }

  /** The elements satisfying `f`, in their original order. */
  function Filter<T(==)>(s: seq<T>, f: T -> bool): (r: seq<T>)
    ensures |r| <= |s|
    ensures forall i :: 0 <= i < |r| ==> r[i] in s && f(r[i])
    ensures forall i :: 0 <= i < |s| && f(s[i]) ==> s[i] in r
  {
    if s == [] then []
    else (if f(s[0]) then [s[0]] else []) + Filter(s[1..], f)
  }

  /** Filtering a concatenation filters each part and keeps them in order;
      with `FilterSingleton` this pins down `Filter` completely: the kept
      elements, each as often as it occurs, in their original order. */
  lemma {:induction false} FilterAppend<T>(a: seq<T>, b: seq<T>, f: T -> bool)
    ensures Filter(a + b, f) == Filter(a, f) + Filter(b, f)
  {
    if a != [] {
      FilterAppend(a[1..], b, f);
      assert (a + b)[1..] == a[1..] + b;
      assert (a + b)[0] == a[0];
    } else {
      assert a + b == b;
    }
  }

  /** A single element is kept exactly when it passes. */
  lemma FilterSingleton<T>(x: T, f: T -> bool)
    ensures Filter([x], f) == if f(x) then [x] else []
  {
    assert [x][1..] == [];
  }

  /** Two filters in a row are one filter by both predicates. */
  lemma {:induction false} FilterFilter<T>(s: seq<T>, f: T -> bool, g: T -> bool, h: T -> bool)
    requires forall x :: h(x) == (f(x) && g(x))
    ensures Filter(Filter(s, f), g) == Filter(s, h)
  {
    if s != [] {
      FilterFilter(s[1..], f, g, h);
      var rest := Filter(s[1..], f);
      if f(s[0]) {
        assert Filter(s, f) == [s[0]] + rest;
        assert ([s[0]] + rest)[1..] == rest;
      } else {
        assert Filter(s, f) == rest;
      }
    }
  }

  /** Filters by predicates that agree everywhere agree. */
  lemma {:induction false} FilterSame<T>(s: seq<T>, f: T -> bool, g: T -> bool)
    requires forall x :: f(x) == g(x)
    ensures Filter(s, f) == Filter(s, g)
  {
    if s != [] {
      FilterSame(s[1..], f, g);
    }
  }

  /** The positions of `s` whose element passes `f`. */
  function Passing<T>(s: seq<T>, f: T -> bool): set<int>
  {
    set i | 0 <= i < |s| && f(s[i])
  }

  /** `filter(f).length` counts the positions whose element passes. */
  lemma {:induction false} FilterLength<T>(s: seq<T>, f: T -> bool)
    decreases |s|
    ensures |Filter(s, f)| == |Passing(s, f)|
  {
    if s != [] {
      var p, x := s[..|s| - 1], s[|s| - 1];
      SplitLast(s);
      FilterLength(p, f);
      FilterAppend(p, [x], f);
      FilterSingleton(x, f);
      PassingSnoc(p, x, f);
    }
  }

  /** One element more adds its index to the passing ones exactly when it passes. */
  lemma PassingSnoc<T>(p: seq<T>, x: T, f: T -> bool)
    ensures |Passing(p + [x], f)| == |Passing(p, f)| + if f(x) then 1 else 0
  {
    var s := p + [x];
    var before, after := Passing(p, f), Passing(s, f);
    var extra: set<int> := if f(x) then {|p|} else {};
    forall i | i in after ensures i in before + extra {
      if i < |p| {
        assert s[i] == p[i];
      }
    }
    forall i | i in before + extra ensures i in after {
      if i < |p| {
        assert s[i] == p[i];
      }
    }
    assert after == before + extra;
    assert |p| !in before;
  }

  /** A filter that every element passes returns the sequence unchanged. */
  lemma {:induction false} FilterAll<T>(s: seq<T>, f: T -> bool)
    requires forall i :: 0 <= i < |s| ==> f(s[i])
    ensures Filter(s, f) == s
  {
    if s != [] {
      FilterAll(s[1..], f);
      assert [s[0]] + s[1..] == s;
    }
  }

  /** Splitting a sequence by a predicate and its negation loses and invents nothing. */
  lemma {:induction false} FilterSplit<T>(s: seq<T>, f: T -> bool, g: T -> bool)
    requires forall x :: g(x) == !f(x)
    ensures multiset(Filter(s, f)) + multiset(Filter(s, g)) == multiset(s)
  {
    if s != [] {
      var rf, rg := Filter(s[1..], f), Filter(s[1..], g);
      FilterSplit(s[1..], f, g);
      if f(s[0]) {
        assert Filter(s, g) == rg by { assert !g(s[0]); }
        ConsSplit(s, rf, rg);
      } else {
        assert Filter(s, g) == [s[0]] + rg by { assert g(s[0]); }
        ConsSplit(s, rg, rf);
      }
    }
  }

  lemma ConsSplit<T>(s: seq<T>, a: seq<T>, b: seq<T>)
    requires s != [] && multiset(a) + multiset(b) == multiset(s[1..])
    ensures multiset([s[0]] + a) + multiset(b) == multiset(s)
  {
    assert s == [s[0]] + s[1..];
  }

  /** `key` never increases along `s`. */
  predicate SortedDesc<T>(s: seq<T>, key: T -> int)
  {
    forall i, j :: 0 <= i < j < |s| ==> key(s[j]) <= key(s[i])
  }

  /** Inserts `x` before the first element whose key does not exceed its own,
      so that `x` stays ahead of the equal keys that follow it. */
  function Insert<T(==)>(x: T, s: seq<T>, key: T -> int): (r: seq<T>)
    ensures |r| == |s| + 1
    ensures multiset(r) == multiset(s) + multiset{x}
  {
    if s == [] || key(s[0]) <= key(x) then [x] + s
    else
      assert s == [s[0]] + s[1..];
      [s[0]] + Insert(x, s[1..], key)
  }

  /** Inserting into a sorted sequence keeps it sorted. */
  lemma {:induction false} InsertSorted<T>(x: T, s: seq<T>, key: T -> int)
    requires SortedDesc(s, key)
    ensures SortedDesc(Insert(x, s, key), key)
  {
    if s == [] || key(s[0]) <= key(x) {
      ConsSorted(x, s, key);
    } else {
      var rest := Insert(x, s[1..], key);
      InsertMembers(x, s[1..], key);
      SortedTail(s, key);
      InsertSorted(x, s[1..], key);
      HeadBoundsRest(x, s, key, rest);
      ConsSorted(s[0], rest, key);
    }
  }

  /** Every element of an insertion is the inserted one or comes from `s`. */
  lemma InsertMembers<T>(x: T, s: seq<T>, key: T -> int)
    ensures forall i :: 0 <= i < |Insert(x, s, key)| ==> Insert(x, s, key)[i] == x || Insert(x, s, key)[i] in s
  {
    var r := Insert(x, s, key);
    forall i | 0 <= i < |r| ensures r[i] == x || r[i] in s {
      assert r[i] in multiset(r);
    }
  }

  /** The tail of a sorted sequence is sorted. */
  lemma SortedTail<T>(s: seq<T>, key: T -> int)
    requires SortedDesc(s, key) && s != []
    ensures SortedDesc(s[1..], key)
  {
    var tail := s[1..];
    forall i, j | 0 <= i < j < |tail| ensures key(tail[j]) <= key(tail[i]) {
      assert tail[j] == s[j + 1] && tail[i] == s[i + 1];
    }
  }

  /** Putting in front an element whose key bounds all of a sorted sequence keeps it sorted. */
  lemma ConsSorted<T>(h: T, s: seq<T>, key: T -> int)
    requires SortedDesc(s, key)
    requires forall i :: 0 <= i < |s| ==> key(s[i]) <= key(h)
    ensures SortedDesc([h] + s, key)
  {
    var r := [h] + s;
    forall i, j | 0 <= i < j < |r| ensures key(r[j]) <= key(r[i]) {
      assert r[j] == s[j - 1];
      if i > 0 { assert r[i] == s[i - 1]; }
    }
  }

  /** Every element of `rest`, drawn from `x` and the tail of a sorted `s`,
      has a key at most that of `s[0]` when `x`'s key is below it. */
  lemma HeadBoundsRest<T>(x: T, s: seq<T>, key: T -> int, rest: seq<T>)
    requires s != [] && key(x) < key(s[0])
    requires forall i :: 0 <= i < |rest| ==> rest[i] == x || rest[i] in s[1..]
    ensures SortedDesc(s, key) ==> forall i :: 0 <= i < |rest| ==> key(rest[i]) <= key(s[0])
  {
    if SortedDesc(s, key) {
      forall i | 0 <= i < |rest|
        ensures key(rest[i]) <= key(s[0])
      {
        if rest[i] != x {
          var m :| 0 <= m < |s[1..]| && s[1..][m] == rest[i];
          assert s[m + 1] == rest[i];
        }
      }
    }
  }

  /** A stable sort by non-increasing `key` (insertion sort). A comparator
      `(a, b) => key(b) - key(a)` in the server sorts this way; an ascending
      comparator on `k` is `SortDesc` on `-k`. */
  function SortDesc<T(==)>(s: seq<T>, key: T -> int): (r: seq<T>)
    ensures |r| == |s|
    ensures multiset(r) == multiset(s)
  {
    if s == [] then []
    else
      assert s == [s[0]] + s[1..];
      Insert(s[0], SortDesc(s[1..], key), key)
  }

  /** The sort leaves `key` non-increasing. */
  lemma {:induction false} SortDescSorts<T>(s: seq<T>, key: T -> int)
    ensures SortedDesc(SortDesc(s, key), key)
  {
    if s != [] {
      SortDescSorts(s[1..], key);
      InsertSorted(s[0], SortDesc(s[1..], key), key);
    }
  }

  /** `s.reduce((sum, x) => sum + f(x), 0)`, folded from the left. */
  function Sum<T>(s: seq<T>, f: T -> int): int
  {
    if s == [] then 0 else Sum(s[..|s| - 1], f) + f(s[|s| - 1])
  }

  /** A sum of non-negative values is non-negative. */
  lemma {:induction false} SumNonNegative<T>(s: seq<T>, f: T -> int)
    requires forall i :: 0 <= i < |s| ==> f(s[i]) >= 0
    ensures Sum(s, f) >= 0
  {
    if s != [] {
      SumNonNegative(s[..|s| - 1], f);
    }
  }

  /** The sum over two runs is the sum of their sums. */
  lemma {:induction false} SumAppend<T>(a: seq<T>, b: seq<T>, f: T -> int)
    decreases |b|
    ensures Sum(a + b, f) == Sum(a, f) + Sum(b, f)
  {
    if b == [] {
      assert a + b == a;
    } else {
      var b' := b[..|b| - 1];
      SumAppend(a, b', f);
      assert (a + b)[..|a + b| - 1] == a + b';
      assert (a + b)[|a + b| - 1] == b[|b| - 1];
    }
  }

  /** Taking one element out lowers the sum by exactly that element's value. */
  lemma SumRemove<T>(s: seq<T>, i: nat, f: T -> int)
    requires i < |s|
    ensures Sum(s, f) == Sum(s[..i] + s[i + 1..], f) + f(s[i])
  {
    var p, q, x := s[..i], s[i + 1..], s[i];
    SplitAt(s, i);
    SumAppend(p + [x], q, f);
    SumSnoc(p, x, f);
    SumAppend(p, q, f);
  }

  lemma SplitLast<T>(s: seq<T>)
    requires s != []
    ensures s == s[..|s| - 1] + [s[|s| - 1]]
  {
  }

  lemma SplitAt<T>(s: seq<T>, i: nat)
    requires i < |s|
    ensures s == (s[..i] + [s[i]]) + s[i + 1..]
  {
  }

  /** One more element at the end adds its value. */
  lemma SumSnoc<T>(p: seq<T>, x: T, f: T -> int)
    ensures Sum(p + [x], f) == Sum(p, f) + f(x)
  {
    assert (p + [x])[..|p|] == p;
  }

  /** Taking one element out removes one occurrence of it. */
  lemma MultisetRemove<T>(s: seq<T>, i: nat)
    requires i < |s|
    ensures multiset(s[..i] + s[i + 1..]) == multiset(s) - multiset{s[i]}
  {
    assert s == s[..i] + [s[i]] + s[i + 1..];
  }

  /** The sum does not depend on the order of the elements. */
  lemma {:induction false} SumPermutation<T>(a: seq<T>, b: seq<T>, f: T -> int)
    requires multiset(a) == multiset(b)
    decreases |a|
    ensures Sum(a, f) == Sum(b, f)
  {
    if a == [] {
      assert |b| == |multiset(b)| == 0;
    } else {
      var n := |a| - 1;
      assert a[n] in multiset(b) by {
        assert a[n] in a;
      }
      var i :| 0 <= i < |b| && b[i] == a[n];
      MultisetRemove(a, n);
      MultisetRemove(b, i);
      assert a[..n] + a[n + 1..] == a[..n];
      SumPermutation(a[..n], b[..i] + b[i + 1..], f);
      SumRemove(b, i, f);
    }
  }

  /** Sorting a sequence already in order changes nothing; in particular
      sorting twice is sorting once. */
  lemma {:induction false} SortDescSorted<T>(s: seq<T>, key: T -> int)
    requires SortedDesc(s, key)
    ensures SortDesc(s, key) == s
  {
    if s != [] {
      var tail := s[1..];
      SortedTail(s, key);
      SortDescSorted(tail, key);
      assert tail == [] || key(tail[0]) <= key(s[0]);
      InsertInFront(s[0], tail, key);
      assert s == [s[0]] + tail;
    }
  }

  lemma InsertInFront<T>(x: T, s: seq<T>, key: T -> int)
    requires s == [] || key(s[0]) <= key(x)
    ensures Insert(x, s, key) == [x] + s
  {
  }

  /** At most the first `n` elements (`slice(0, n)`). */
  function Take<T>(s: seq<T>, n: nat): (r: seq<T>)
    ensures |r| == if |s| <= n then |s| else n
    ensures forall i :: 0 <= i < |r| ==> r[i] == s[i]
  {
    if |s| <= n then s else s[..n]
  }
  /** `s.sort(...).slice(0, n)` with a comparator by non-increasing `key`:
      at most `n` elements of `s`. */
  function Top<T(==)>(s: seq<T>, key: T -> int, n: nat): (r: seq<T>)
    ensures |r| == if |s| <= n then |s| else n
    ensures multiset(r) <= multiset(s)
  {
    var sorted := SortDesc(s, key);
    if |sorted| <= n then sorted
    else
      assert sorted == sorted[..n] + sorted[n..];
      sorted[..n]
  }

  /** What `Top` keeps comes best first, and nothing left out beats any
      element kept. */
  lemma TopBest<T>(s: seq<T>, key: T -> int, n: nat, r: seq<T>)
    requires r == Top(s, key, n)
    ensures SortedDesc(r, key)
    ensures forall x, i {:trigger (multiset(s) - multiset(r))[x], r[i]} :: x in multiset(s) - multiset(r) && 0 <= i < |r| ==> key(x) <= key(r[i])
  {
    var sorted := SortDesc(s, key);
    SortDescSorts(s, key);
    if |sorted| > n {
      PrefixBeatsRest(s, sorted, key, n, r);
    } else {
      assert multiset(s) - multiset(r) == multiset{};
    }
  }

  /** In a sorting of `s` by non-increasing `key`, the first `n` elements
      are a sorted sub-multiset of `s` that no element left out beats. */
  lemma PrefixBeatsRest<T>(s: seq<T>, sorted: seq<T>, key: T -> int, n: nat, r: seq<T>)
    requires multiset(sorted) == multiset(s) && SortedDesc(sorted, key)
    requires n < |sorted| && r == sorted[..n]
    ensures multiset(r) <= multiset(s)
    ensures SortedDesc(r, key)
    ensures forall x, i {:trigger (multiset(s) - multiset(r))[x], r[i]} :: x in multiset(s) - multiset(r) && 0 <= i < |r| ==> key(x) <= key(r[i])
  {
    var rest := sorted[n..];
    assert sorted == r + rest;
    assert multiset(s) - multiset(r) == multiset(rest);
    forall x, i | x in multiset(rest) && 0 <= i < n ensures key(x) <= key(r[i]) {
      var j :| 0 <= j < |rest| && rest[j] == x;
      assert sorted[n + j] == x && sorted[i] == r[i];
    }
  }
}
