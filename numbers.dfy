/** Folds over sequences that the solutions take with `Iterator::sum`, `product` and `count`. */
module Numbers {

  function Sum(s: seq<int>): int {
    if s == [] then 0 else Sum(s[..|s| - 1]) + s[|s| - 1]
  }

  lemma {:induction false} SumAppend(a: seq<int>, b: seq<int>)
    ensures Sum(a + b) == Sum(a) + Sum(b)
    decreases |b|
  {
    if b == [] {
      assert a + b == a;
    } else {
      assert (a + b)[..|a + b| - 1] == a + b[..|b| - 1];
      SumAppend(a, b[..|b| - 1]);
    }
  }

  lemma SumCons(x: int, s: seq<int>)
    ensures Sum([x] + s) == x + Sum(s)
  {
    SumAppend([x], s);
    assert [x][..0] == [];
  }

  lemma SumThree(x: int, y: int, z: int)
    ensures Sum([x, y, z]) == x + y + z
  {
    assert [x][..0] == [];
    assert Sum([x]) == x;
    assert [x, y][..1] == [x];
    assert Sum([x, y]) == x + y;
    assert [x, y, z][..2] == [x, y];
  }

  lemma SumNonNegative(s: seq<int>)
    requires forall k :: 0 <= k < |s| ==> s[k] >= 0
    ensures Sum(s) >= 0
  {
    if s != [] {
      SumNonNegative(s[..|s| - 1]);
    }
  }

  /** A sum does not depend on the order of its terms. */
  lemma {:induction false} SumPermutation(a: seq<int>, b: seq<int>)
    requires multiset(a) == multiset(b)
    ensures Sum(a) == Sum(b)
    decreases |a|
  {
    if a != [] {
      assert |a| == |multiset(a)| == |b|;
      var x := a[0];
      assert x in multiset(b);
      var i :| 0 <= i < |b| && b[i] == x;
      var rest := b[..i] + b[i + 1..];
      MultisetRemove(b, i);
      assert a == [x] + a[1..];
      assert multiset(a[1..]) == multiset(rest);
      SumPermutation(a[1..], rest);
      SumRemove(b, i);
      SumCons(x, a[1..]);
    }
  }

  /** Removing the element at `i` removes one occurrence of it. */
  lemma MultisetRemove<T>(s: seq<T>, i: nat)
    requires i < |s|
    ensures multiset(s[..i] + s[i + 1..]) == multiset(s) - multiset{s[i]}
  {
    assert s == s[..i] + [s[i]] + s[i + 1..];
  }

  /** The sum is the element at `i` plus the sum of the others. */
  lemma SumRemove(s: seq<int>, i: nat)
    requires i < |s|
    ensures Sum(s) == s[i] + Sum(s[..i] + s[i + 1..])
  {
    var left, mid, right := s[..i], [s[i]], s[i + 1..];
    SumAppend(left + mid, right);
    SumAppend(left, mid);
    SumAppend(left, right);
    assert Sum(mid) == s[i] by {
      assert mid[..0] == [];
    }
    assert left + mid + right == s;
  }

  function Product(s: seq<int>): int {
    if s == [] then 1 else Product(s[..|s| - 1]) * s[|s| - 1]
  }

  /** Number of positions of `s` holding `x`. */
  function Occurrences<T(==)>(s: seq<T>, x: T): (n: nat)
    ensures n <= |s|
    ensures n == 0 <==> x !in s
  {
    if s == [] then 0 else Occurrences(s[..|s| - 1], x) + (if s[|s| - 1] == x then 1 else 0)
  }

  lemma OccurrencesSnoc<T>(s: seq<T>, y: T, x: T)
    ensures Occurrences(s + [y], x) == Occurrences(s, x) + (if y == x then 1 else 0)
  {
    assert (s + [y])[..|s|] == s;
  }

  /** The number of occurrences is the multiplicity in the multiset of the elements. */
  lemma {:induction false} OccurrencesMultiplicity<T>(s: seq<T>, x: T)
    ensures Occurrences(s, x) == multiset(s)[x]
  {
    if s != [] {
      OccurrencesMultiplicity(s[..|s| - 1], x);
      assert s == s[..|s| - 1] + [s[|s| - 1]];
    }
  }

  /** Two different values share the positions of `s`: together they occur at most `|s|` times. */
  lemma {:induction false} OccurrencesOfTwo<T>(s: seq<T>, x: T, y: T)
    requires x != y
    ensures Occurrences(s, x) + Occurrences(s, y) <= |s|
  {
    if s != [] {
      OccurrencesOfTwo(s[..|s| - 1], x, y);
    }
  }

  /** Number of elements of `s` that satisfy `p` (`filter(p).count()`). */
  function CountWhere<T>(s: seq<T>, p: T -> bool): (n: nat)
    ensures n <= |s|
  {
    if s == [] then 0 else CountWhere(s[..|s| - 1], p) + (if p(s[|s| - 1]) then 1 else 0)
  }

  lemma {:induction false} CountWhereAppend<T>(a: seq<T>, b: seq<T>, p: T -> bool)
    ensures CountWhere(a + b, p) == CountWhere(a, p) + CountWhere(b, p)
    decreases |b|
  {
    if b == [] {
      assert a + b == a;
    } else {
      assert (a + b)[..|a + b| - 1] == a + b[..|b| - 1];
      CountWhereAppend(a, b[..|b| - 1], p);
    }
  }

  /** A count does not depend on the order of the elements. */
  lemma {:induction false} CountWherePermutation<T>(a: seq<T>, b: seq<T>, p: T -> bool)
    requires multiset(a) == multiset(b)
    ensures CountWhere(a, p) == CountWhere(b, p)
    decreases |a|
  {
    if a != [] {
      assert |a| == |multiset(a)| == |b|;
      var x := a[0];
      assert x in multiset(b);
      var i :| 0 <= i < |b| && b[i] == x;
      var rest := b[..i] + b[i + 1..];
      assert b == b[..i] + [x] + b[i + 1..];
      assert a == [x] + a[1..];
      assert multiset(b) == multiset(b[..i]) + multiset{x} + multiset(b[i + 1..]);
      assert multiset(rest) == multiset(b[..i]) + multiset(b[i + 1..]);
      assert multiset(a[1..]) == multiset(a) - multiset{x};
      CountWherePermutation(a[1..], rest, p);
      CountWhereAppend(b[..i] + [x], b[i + 1..], p);
      CountWhereAppend(b[..i], [x], p);
      CountWhereAppend(b[..i], b[i + 1..], p);
      CountWhereAppend([x], a[1..], p);
      assert [x][..0] == [];
    }
  }
}
