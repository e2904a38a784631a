/** Orderings by integer keys compared lexicographically, and the two sorts the solutions rely on:
    `slice::sort` on a vector in place, and itertools' `sorted_by_key` (a stable sort). */
module Sorting {

  /** Lexicographic order on integer sequences; a proper prefix comes first. */
  predicate LexLe(a: seq<int>, b: seq<int>) {
    a == [] || (b != [] && (a[0] < b[0] || (a[0] == b[0] && LexLe(a[1..], b[1..]))))
  }

  predicate LexLess(a: seq<int>, b: seq<int>) {
    LexLe(a, b) && a != b
  }

  lemma {:induction false} LexLeReflexive(a: seq<int>)
    ensures LexLe(a, a)
  {
    if a != [] {
      LexLeReflexive(a[1..]);
    }
  }

  lemma {:induction false} LexLeTransitive(a: seq<int>, b: seq<int>, c: seq<int>)
    requires LexLe(a, b) && LexLe(b, c)
    ensures LexLe(a, c)
  {
    if a != [] && b != [] && c != [] && a[0] == b[0] == c[0] {
      LexLeTransitive(a[1..], b[1..], c[1..]);
    }
  }

  lemma {:induction false} LexLeTotal(a: seq<int>, b: seq<int>)
    ensures LexLe(a, b) || LexLe(b, a)
  {
    if a != [] && b != [] && a[0] == b[0] {
      LexLeTotal(a[1..], b[1..]);
    }
  }

  lemma {:induction false} LexLeAntisymmetric(a: seq<int>, b: seq<int>)
    requires LexLe(a, b) && LexLe(b, a)
    ensures a == b
  {
    if a != [] && b != [] {
      LexLeAntisymmetric(a[1..], b[1..]);
      assert a == [a[0]] + a[1..] && b == [b[0]] + b[1..];
    }
  }

  /** The first difference decides. */
  lemma {:induction false} LexLeAtFirstDifference(a: seq<int>, b: seq<int>, n: nat)
    requires n < |a| && n < |b| && a[..n] == b[..n] && a[n] < b[n]
    ensures LexLe(a, b)
  {
    if n > 0 {
      assert a[0] == a[..n][0] && b[0] == b[..n][0];
      assert a[1..][..n - 1] == a[..n][1..] && b[1..][..n - 1] == b[..n][1..];
      LexLeAtFirstDifference(a[1..], b[1..], n - 1);
    }
  }

  ghost predicate SortedBy<T>(s: seq<T>, key: T -> seq<int>) {
    forall i, j :: 0 <= i < j < |s| ==> LexLe(key(s[i]), key(s[j]))
  }

  /** No two distinct elements share a key. */
  ghost predicate KeyInjective<T>(s: seq<T>, key: T -> seq<int>) {
    forall i, j :: 0 <= i < |s| && 0 <= j < |s| && key(s[i]) == key(s[j]) ==> s[i] == s[j]
  }

  /** Order between neighbours is order throughout. */
  lemma {:induction false} SortedByAdjacent<T>(s: seq<T>, key: T -> seq<int>)
    requires forall i :: 0 <= i < |s| - 1 ==> LexLe(key(s[i]), key(s[i + 1]))
    ensures SortedBy(s, key)
  {
    forall i, j | 0 <= i < j < |s|
      ensures LexLe(key(s[i]), key(s[j]))
    {
      AdjacentReach(s, key, i, j);
    }
  }

  lemma {:induction false} AdjacentReach<T>(s: seq<T>, key: T -> seq<int>, i: nat, j: nat)
    requires forall i :: 0 <= i < |s| - 1 ==> LexLe(key(s[i]), key(s[i + 1]))
    requires i <= j < |s|
    ensures LexLe(key(s[i]), key(s[j]))
    decreases j - i
  {
    if i == j {
      LexLeReflexive(key(s[i]));
    } else {
      AdjacentReach(s, key, i + 1, j);
      LexLeTransitive(key(s[i]), key(s[i + 1]), key(s[j]));
    }
  }

  // ---------------------------------------------------------------------------------------------
  // In-place sort

  method Swap<T>(a: array<T>, i: nat, j: nat)
    requires i < a.Length && j < a.Length
    modifies a
    ensures a[i] == old(a[j]) && a[j] == old(a[i])
    ensures forall k :: 0 <= k < a.Length && k != i && k != j ==> a[k] == old(a[k])
    ensures multiset(a[..]) == old(multiset(a[..]))
  {
    a[i], a[j] := a[j], a[i];
  }

  /** Insertion sort, standing for `slice::sort`. */
  method SortInPlace<T>(a: array<T>, key: T -> seq<int>)
    modifies a
    ensures SortedBy(a[..], key)
    ensures multiset(a[..]) == old(multiset(a[..]))
  {
    var i := 0;
    while i < a.Length
      invariant 0 <= i <= a.Length
      invariant SortedBy(a[..i], key)
      invariant multiset(a[..]) == old(multiset(a[..]))
    {
      InsertLast(a, i, key);
      i := i + 1;
    }
    assert a[..a.Length] == a[..];
  }

  /** Moves `a[i]` left into the sorted prefix `a[..i]`. */
  method InsertLast<T>(a: array<T>, i: nat, key: T -> seq<int>)
    requires i < a.Length && SortedBy(a[..i], key)
    modifies a
    ensures SortedBy(a[..i + 1], key)
    ensures forall k :: i < k < a.Length ==> a[k] == old(a[k])
    ensures multiset(a[..]) == old(multiset(a[..]))
  {
    var j := i;
    while j > 0 && !LexLe(key(a[j - 1]), key(a[j]))
      invariant 0 <= j <= i
      invariant forall p, q :: 0 <= p < q <= i && p != j && q != j ==> LexLe(key(a[p]), key(a[q]))
      invariant forall q :: j < q <= i ==> LexLe(key(a[j]), key(a[q]))
      invariant forall k :: i < k < a.Length ==> a[k] == old(a[k])
      invariant multiset(a[..]) == old(multiset(a[..]))
    {
      LexLeTotal(key(a[j - 1]), key(a[j]));
      Swap(a, j - 1, j);
      j := j - 1;
    }
    forall p, q | 0 <= p < q <= i
      ensures LexLe(key(a[p]), key(a[q]))
    {
      if q == j && p < j - 1 {
        LexLeTransitive(key(a[p]), key(a[j - 1]), key(a[j]));
      }
    }
  }

  /** `slice::reverse`. */
  method ReverseInPlace<T>(a: array<T>)
    modifies a
    ensures forall k :: 0 <= k < a.Length ==> a[k] == old(a[a.Length - 1 - k])
    ensures multiset(a[..]) == old(multiset(a[..]))
  {
    var i := 0;
    while i < a.Length / 2
      invariant 0 <= i <= a.Length / 2
      invariant forall k :: 0 <= k < i || a.Length - 1 - i < k < a.Length ==> a[k] == old(a[a.Length - 1 - k])
      invariant forall k :: i <= k <= a.Length - 1 - i ==> a[k] == old(a[k])
      invariant multiset(a[..]) == old(multiset(a[..]))
    {
      Swap(a, i, a.Length - 1 - i);
      i := i + 1;
    }
  }

  lemma LexLeSingleton(x: int, y: int)
    ensures LexLe([x], [y]) <==> x <= y
  {
    assert [x][1..] == [] && [y][1..] == [];
  }

  /** The key of a number used to sort numbers ascending. */
  function Singleton(x: int): seq<int> { [x] }

  predicate NonIncreasing(s: seq<int>) {
    forall i, j :: 0 <= i < j < |s| ==> s[i] >= s[j]
  }

  predicate NonDecreasing(s: seq<int>) {
    forall i, j :: 0 <= i < j < |s| ==> s[i] <= s[j]
  }

  lemma SortedBySingleton(s: seq<int>)
    ensures SortedBy(s, Singleton) <==> NonDecreasing(s)
  {
    forall i, j | 0 <= i < j < |s| {
      LexLeSingleton(s[i], s[j]);
    }
  }

  function NatKey(x: nat): seq<int> { [x] }

  lemma SortedByNatKey(s: seq<nat>)
    ensures SortedBy(s, NatKey) <==> NonDecreasing(s)
  {
    forall i, j | 0 <= i < j < |s| {
      LexLeSingleton(s[i], s[j]);
    }
  }

  function Reverse<T>(s: seq<T>): (r: seq<T>)
    ensures |r| == |s| && forall i :: 0 <= i < |s| ==> r[i] == s[|s| - 1 - i]
  {
    seq(|s|, i requires 0 <= i < |s| => s[|s| - 1 - i])
  }

  lemma ReverseOfNonDecreasing(s: seq<int>)
    requires NonDecreasing(s)
    ensures NonIncreasing(Reverse(s))
  {
  }

  method ArrayOf(s: seq<nat>) returns (a: array<nat>)
    ensures fresh(a) && a[..] == s
  {
    a := new nat[|s|](i requires 0 <= i < |s| => s[i]);
  }

  /** `v.sort(); v.reverse();` on a vector of numbers: largest first. */
  method SortDescending(s: seq<nat>) returns (r: seq<nat>)
    ensures NonIncreasing(r)
    ensures multiset(r) == multiset(s)
  {
    var a := ArrayOf(s);
    SortInPlace(a, NatKey);
    SortedByNatKey(a[..]);
    ghost var ascending := a[..];
    ReverseInPlace(a);
    assert a[..] == Reverse(ascending);
    ReverseOfNonDecreasing(ascending);
    r := a[..];
  }

  // ---------------------------------------------------------------------------------------------
  // Stable functional sort

  /** Places `x` after every element whose key is not greater than its own. */
  function InsertAfterEqual<T>(s: seq<T>, x: T, key: T -> seq<int>): (r: seq<T>)
    ensures multiset(r) == multiset(s) + multiset{x}
    ensures |r| == |s| + 1
    ensures SortedBy(s, key) ==> SortedBy(r, key)
    decreases |s|
  {
    if s == [] then [x]
    else if LexLe(key(s[|s| - 1]), key(x)) then
      (assert s == s[..|s| - 1] + [s[|s| - 1]];
       LexLeReflexive(key(x));
       FromSortedLast(s, x, key);
       s + [x])
    else
      var init := s[..|s| - 1];
      assert s == init + [s[|s| - 1]];
      var r := InsertAfterEqual(init, x, key) + [s[|s| - 1]];
      (LexLeTotal(key(s[|s| - 1]), key(x));
       SortedAppendLast(InsertAfterEqual(init, x, key), init, x, s[|s| - 1], key, SortedBy(s, key));
       r)
  }

  lemma FromSortedLast<T>(s: seq<T>, x: T, key: T -> seq<int>)
    requires s != [] && LexLe(key(s[|s| - 1]), key(x))
    ensures SortedBy(s, key) ==> SortedBy(s + [x], key)
  {
    if SortedBy(s, key) {
      forall i | 0 <= i < |s|
        ensures LexLe(key(s[i]), key(x))
      {
        if i < |s| - 1 {
          LexLeTransitive(key(s[i]), key(s[|s| - 1]), key(x));
        }
      }
    }
  }

  lemma SortedAppendLast<T>(r: seq<T>, init: seq<T>, x: T, last: T, key: T -> seq<int>, sorted: bool)
    requires multiset(r) == multiset(init) + multiset{x}
    requires LexLe(key(x), key(last))
    requires sorted ==> SortedBy(init + [last], key) && SortedBy(r, key)
    ensures sorted ==> SortedBy(r + [last], key)
  {
    if sorted {
      forall i | 0 <= i < |r|
        ensures LexLe(key(r[i]), key(last))
      {
        assert r[i] in multiset(r);
        if r[i] == x {
        } else {
          assert r[i] in multiset(init);
          var k :| 0 <= k < |init| && init[k] == r[i];
          assert (init + [last])[k] == init[k] && (init + [last])[|init|] == last;
        }
      }
    }
  }

  /** Stable sort by key, standing for itertools' `sorted_by_key`. */
  function SortByKey<T>(s: seq<T>, key: T -> seq<int>): (r: seq<T>)
    ensures |r| == |s|
    ensures multiset(r) == multiset(s)
    ensures SortedBy(r, key)
  {
    if s == [] then []
    else
      assert s == s[..|s| - 1] + [s[|s| - 1]];
      InsertAfterEqual(SortByKey(s[..|s| - 1], key), s[|s| - 1], key)
  }

  /** The elements of `s` whose key is `k`, in their order in `s`. */
  function WithKey<T>(s: seq<T>, key: T -> seq<int>, k: seq<int>): seq<T> {
    if s == [] then []
    else WithKey(s[..|s| - 1], key, k) + (if key(s[|s| - 1]) == k then [s[|s| - 1]] else [])
  }

  /** `x` goes after every element with its key, so it ends the run of its key. */
  lemma {:induction false} InsertAfterEqualStable<T>(s: seq<T>, x: T, key: T -> seq<int>, k: seq<int>)
    ensures WithKey(InsertAfterEqual(s, x, key), key, k) == WithKey(s, key, k) + (if key(x) == k then [x] else [])
    decreases |s|
  {
    var r := InsertAfterEqual(s, x, key);
    if s == [] {
      assert r[..0] == [];
    } else if LexLe(key(s[|s| - 1]), key(x)) {
      assert r[..|r| - 1] == s;
    } else {
      var init, last := s[..|s| - 1], s[|s| - 1];
      InsertAfterEqualStable(init, x, key, k);
      assert r[..|r| - 1] == InsertAfterEqual(init, x, key) && r[|r| - 1] == last;
      LexLeReflexive(key(x));
    }
  }

  /** `SortByKey` is stable: the elements sharing a key keep their relative order. */
  lemma {:induction false} SortByKeyStable<T>(s: seq<T>, key: T -> seq<int>, k: seq<int>)
    ensures WithKey(SortByKey(s, key), key, k) == WithKey(s, key, k)
  {
    if s != [] {
      SortByKeyStable(s[..|s| - 1], key, k);
      InsertAfterEqualStable(SortByKey(s[..|s| - 1], key), s[|s| - 1], key, k);
    }
  }

  // ---------------------------------------------------------------------------------------------
  // Uniqueness

  /** Two sorted arrangements of the same elements are equal when no two distinct elements share a key. */
  lemma {:induction false} SortedUnique<T>(s: seq<T>, t: seq<T>, key: T -> seq<int>)
    requires multiset(s) == multiset(t)
    requires SortedBy(s, key) && SortedBy(t, key) && KeyInjective(s, key)
    ensures s == t
    decreases |s|
  {
    assert |s| == |multiset(s)| == |t|;
    if s != [] {
      SameFirst(s, t, key);
      var s', t' := s[1..], t[1..];
      MultisetTail(s);
      MultisetTail(t);
      assert multiset(s') == multiset(t');
      SortedTail(s, key);
      SortedTail(t, key);
      SortedUnique(s', t', key);
      SameHeadAndTail(s, t);
    }
  }

  lemma SameHeadAndTail<T>(s: seq<T>, t: seq<T>)
    requires s != [] && t != [] && s[0] == t[0] && s[1..] == t[1..]
    ensures s == t
  {
    assert s == [s[0]] + s[1..] && t == [t[0]] + t[1..];
  }

  /** Swapping two neighbours keeps the elements. */
  lemma SwapNeighbours<T>(s: seq<T>, t: seq<T>, i: nat)
    requires i + 1 < |s| && |t| == |s| && t[i] == s[i + 1] && t[i + 1] == s[i]
    requires forall k :: 0 <= k < |s| && k != i && k != i + 1 ==> t[k] == s[k]
    ensures multiset(s) == multiset(t)
  {
    assert s == s[..i] + [s[i], s[i + 1]] + s[i + 2..];
    assert t == s[..i] + [s[i + 1], s[i]] + s[i + 2..];
    assert multiset([s[i], s[i + 1]]) == multiset([s[i + 1], s[i]]) by {
      assert [s[i], s[i + 1]] == [s[i]] + [s[i + 1]] && [s[i + 1], s[i]] == [s[i + 1]] + [s[i]];
    }
  }

  /** An arrangement in which each key is at most the next, with no key shared by two elements,
      is the sorted arrangement. */
  lemma SortedArrangement<T>(s: seq<T>, t: seq<T>, key: T -> seq<int>)
    requires multiset(s) == multiset(t) && KeyInjective(t, key)
    requires forall i :: 0 <= i < |t| - 1 ==> LexLe(key(t[i]), key(t[i + 1]))
    ensures SortByKey(s, key) == t
  {
    SortedByAdjacent(t, key);
    SortedUnique(t, SortByKey(s, key), key);
  }

  /** Both first elements are least, so they share a key, so they are the same element. */
  lemma SameFirst<T>(s: seq<T>, t: seq<T>, key: T -> seq<int>)
    requires s != [] && t != [] && multiset(s) == multiset(t)
    requires SortedBy(s, key) && SortedBy(t, key) && KeyInjective(s, key)
    ensures s[0] == t[0]
  {
    assert s[0] in multiset(t);
    var j :| 0 <= j < |t| && t[j] == s[0];
    assert t[0] in multiset(s);
    var i :| 0 <= i < |s| && s[i] == t[0];
    LexLeReflexive(key(s[0]));
    assert LexLe(key(t[0]), key(t[j]));
    assert LexLe(key(s[0]), key(s[i]));
    LexLeAntisymmetric(key(s[0]), key(t[0]));
  }

  lemma MultisetTail<T>(s: seq<T>)
    requires s != []
    ensures multiset(s[1..]) == multiset(s) - multiset{s[0]}
  {
    assert s == [s[0]] + s[1..];
  }

  lemma SortedTail<T>(s: seq<T>, key: T -> seq<int>)
    requires s != [] && SortedBy(s, key)
    ensures SortedBy(s[1..], key)
    ensures KeyInjective(s, key) ==> KeyInjective(s[1..], key)
  {
    assert forall k :: 0 <= k < |s| - 1 ==> s[1..][k] == s[k + 1];
  }
}
