/** `Counter`: a hash map from keys to the number of times each key was added. */
module Counters {
  import opened Numbers
  import opened Sorting

  /** The stored counts of the keys in `ks`, as a bag. */
  ghost function BagOf<T>(m: map<T, nat>, ks: set<T>): multiset<nat>
    requires ks <= m.Keys
    decreases |ks|
  {
    if ks == {} then multiset{} else var k :| k in ks; multiset{m[k]} + BagOf(m, ks - {k})
  }

  /** The sum of the stored counts of the keys in `ks`. */
  ghost function KeysSum<T>(m: map<T, nat>, ks: set<T>): nat
    requires ks <= m.Keys
    decreases |ks|
  {
    if ks == {} then 0 else var k :| k in ks; m[k] + KeysSum(m, ks - {k})
  }

  lemma {:induction false} BagOfRemove<T>(m: map<T, nat>, ks: set<T>, k: T)
    requires ks <= m.Keys && k in ks
    ensures BagOf(m, ks) == multiset{m[k]} + BagOf(m, ks - {k})
    decreases |ks|
  {
    var j :| j in ks && BagOf(m, ks) == multiset{m[j]} + BagOf(m, ks - {j});
    if j != k {
      BagOfRemove(m, ks - {j}, k);
      BagOfRemove(m, ks - {k}, j);
      assert ks - {j} - {k} == ks - {k} - {j};
    }
  }

  lemma {:induction false} KeysSumRemove<T>(m: map<T, nat>, ks: set<T>, k: T)
    requires ks <= m.Keys && k in ks
    ensures KeysSum(m, ks) == m[k] + KeysSum(m, ks - {k})
    decreases |ks|
  {
    var j :| j in ks && KeysSum(m, ks) == m[j] + KeysSum(m, ks - {j});
    if j != k {
      KeysSumRemove(m, ks - {j}, k);
      KeysSumRemove(m, ks - {k}, j);
      assert ks - {j} - {k} == ks - {k} - {j};
    }
  }

  /** Only the counts of the keys in `ks` matter. */
  lemma {:induction false} KeysSumAgree<T>(m: map<T, nat>, n: map<T, nat>, ks: set<T>)
    requires ks <= m.Keys && ks <= n.Keys
    requires forall k :: k in ks ==> m[k] == n[k]
    ensures KeysSum(m, ks) == KeysSum(n, ks)
    decreases |ks|
  {
    if ks != {} {
      var k :| k in ks;
      KeysSumRemove(m, ks, k);
      KeysSumRemove(n, ks, k);
      KeysSumAgree(m, n, ks - {k});
    }
  }

  lemma {:induction false} BagOfSize<T>(m: map<T, nat>, ks: set<T>)
    requires ks <= m.Keys
    ensures |BagOf(m, ks)| == |ks|
    decreases |ks|
  {
    if ks != {} {
      var k :| k in ks;
      BagOfRemove(m, ks, k);
      BagOfSize(m, ks - {k});
    }
  }

  /** The bag holds exactly the counts of the keys in `ks`. */
  lemma {:induction false} BagOfMembers<T>(m: map<T, nat>, ks: set<T>, x: nat)
    requires ks <= m.Keys
    ensures x in BagOf(m, ks) <==> exists k :: k in ks && m[k] == x
    decreases |ks|
  {
    if ks != {} {
      var k :| k in ks;
      BagOfRemove(m, ks, k);
      BagOfMembers(m, ks - {k}, x);
    }
  }

  /** The stored count of `key`, 0 when absent. */
  function CountIn<T>(m: map<T, nat>, key: T): nat {
    if key in m then m[key] else 0
  }

  /** `m` holds exactly the number of occurrences of each key of `s`. */
  ghost predicate Counts<T(!new)>(m: map<T, nat>, s: seq<T>) {
    (forall k :: k in m ==> m[k] >= 1 && m[k] == Occurrences(s, k)) &&
    (forall i :: 0 <= i < |s| ==> s[i] in m) &&
    KeysSum(m, m.Keys) == |s|
  }

  /** One more occurrence of `key` raises the stored count of `key` alone. */
  lemma CountInAdd<T>(m: map<T, nat>, key: T)
    ensures forall k :: CountIn(m[key := CountIn(m, key) + 1], k) == CountIn(m, k) + (if k == key then 1 else 0)
  {
  }

  /** One more occurrence adds one to the sum of the counts. */
  lemma KeysSumAdd<T>(m: map<T, nat>, key: T)
    ensures KeysSum(m[key := CountIn(m, key) + 1], m[key := CountIn(m, key) + 1].Keys) == KeysSum(m, m.Keys) + 1
  {
    var m' := m[key := CountIn(m, key) + 1];
    if key in m {
      KeysSumRemove(m, m.Keys, key);
      KeysSumRemove(m', m'.Keys, key);
      assert m'.Keys == m.Keys;
      KeysSumAgree(m, m', m.Keys - {key});
    } else {
      KeysSumRemove(m', m'.Keys, key);
      assert m'.Keys - {key} == m.Keys;
      KeysSumAgree(m, m', m.Keys);
    }
  }

  lemma AddKeepsCounts<T(!new)>(m: map<T, nat>, s: seq<T>, key: T)
    requires Counts(m, s)
    ensures Counts(m[key := CountIn(m, key) + 1], s + [key])
  {
    var m' := m[key := CountIn(m, key) + 1];
    forall k | k in m'
      ensures m'[k] >= 1 && m'[k] == Occurrences(s + [key], k)
    {
      OccurrencesSnoc(s, key, k);
    }
    KeysSumAdd(m, key);
    assert forall i :: 0 <= i < |s| ==> (s + [key])[i] == s[i];
  }

  /** The values `vals` taken so far and the keys `rest` still to visit make up all of `m`. */
  ghost predicate ValuesSoFar<T>(m: map<T, nat>, vals: seq<nat>, rest: set<T>)
  {
    rest <= m.Keys &&
    multiset(vals) + BagOf(m, rest) == BagOf(m, m.Keys) &&
    Sum(vals) + KeysSum(m, rest) == KeysSum(m, m.Keys) &&
    forall i :: 0 <= i < |vals| ==> vals[i] in m.Values
  }

  lemma ValuesStep<T>(m: map<T, nat>, vals: seq<nat>, rest: set<T>, k: T)
    requires ValuesSoFar(m, vals, rest) && k in rest
    ensures ValuesSoFar(m, vals + [m[k]], rest - {k})
  {
    BagOfRemove(m, rest, k);
    KeysSumRemove(m, rest, k);
    SumAppend(vals, [m[k]]);
    assert Sum([m[k]]) == m[k];
    assert multiset(vals + [m[k]]) == multiset(vals) + multiset{m[k]};
  }

  /** The stored counts of a map, in its iteration order. */
  method ValuesOf<T>(m: map<T, nat>) returns (vals: seq<nat>)
    ensures multiset(vals) == BagOf(m, m.Keys)
    ensures Sum(vals) == KeysSum(m, m.Keys)
    ensures forall i :: 0 <= i < |vals| ==> vals[i] in m.Values
  {
    vals := [];
    var rest := m.Keys;
    while rest != {}
      invariant ValuesSoFar(m, vals, rest)
      decreases |rest|
    {
      var k :| k in rest;
      ValuesStep(m, vals, rest, k);
      vals := vals + [m[k]];
      rest := rest - {k};
    }
  }

  class Counter<T(==, !new)> {
    var counts: map<T, nat>
    /** Every key passed to `add`, in order. */
    ghost var added: seq<T>

    ghost predicate Valid()
      reads this
    {
      Counts(counts, added)
    }

    /** `Counter::new`. */
    constructor ()
      ensures Valid() && counts == map[] && added == []
    {
      counts := map[];
      added := [];
    }

    /** `get`: the number of times `key` was added. */
    function Get(key: T): (n: nat)
      reads this
      ensures n == 0 <==> key !in counts || counts[key] == 0
    {
      CountIn(counts, key)
    }

    /** `add`: one more occurrence of `key`. */
    method Add(key: T)
      requires Valid()
      modifies this
      ensures Valid()
      ensures added == old(added) + [key]
      ensures counts == old(counts)[key := old(Get(key)) + 1]
      ensures forall k :: Get(k) == old(Get(k)) + (if k == key then 1 else 0)
    {
      var m, s := counts[key := Get(key) + 1], added + [key];
      AddKeepsCounts(counts, added, key);
      CountInAdd(counts, key);
      counts, added := m, s;
    }

    /** The bag of stored counts. */
    ghost function Bag(): multiset<nat>
      reads this
    {
      BagOf(counts, counts.Keys)
    }

    /** `sorted_counts`: the stored counts, largest first. */
    method SortedCounts() returns (r: seq<nat>)
      requires Valid()
      ensures NonIncreasing(r)
      ensures multiset(r) == Bag()
      ensures |r| == |counts|
      ensures Sum(r) == |added|
      ensures forall i :: 0 <= i < |r| ==> r[i] >= 1
    {
      var vals := ValuesOf(counts);
      r := SortDescending(vals);
      BagOfSize(counts, counts.Keys);
      assert |r| == |multiset(r)| == |counts.Keys|;
      SumPermutation(r, vals);
      forall i | 0 <= i < |r|
        ensures r[i] >= 1
      {
        assert r[i] in multiset(vals);
        var j :| 0 <= j < |vals| && vals[j] == r[i];
        assert vals[j] in counts.Values;
      }
    }

    /** `From<Iterator>`: a counter with every element of `s` added, in order. */
    static method From(s: seq<T>) returns (c: Counter<T>)
      ensures fresh(c) && c.Valid() && c.added == s
      ensures forall k :: c.Get(k) == Occurrences(s, k)
    {
      c := new Counter();
      for i := 0 to |s|
        invariant c.Valid() && c.added == s[..i]
      {
        c.Add(s[i]);
        assert s[..i + 1] == s[..i] + [s[i]];
      }
      assert s[..|s|] == s;
      GetCounts(c);
    }
  }

  /** A valid counter answers the number of occurrences of every key. */
  lemma GetCounts<T(!new)>(c: Counter<T>)
    requires c.Valid()
    ensures forall k :: c.Get(k) == Occurrences(c.added, k)
  {
    forall k
      ensures c.Get(k) == Occurrences(c.added, k)
    {
      if k !in c.counts {
        assert forall i :: 0 <= i < |c.added| ==> c.added[i] in c.counts;
        assert k !in c.added;
      }
    }
  }

  /** The stored counts hold exactly the counts of the keys. */
  lemma CountsInBag<T(!new)>(c: Counter<T>, x: nat)
    requires c.Valid()
    ensures x in c.Bag() <==> exists k :: k in c.counts && c.counts[k] == x
  {
    BagOfMembers(c.counts, c.counts.Keys, x);
  }
}
