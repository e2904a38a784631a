/** `TwoWayHashMap`: a pair of maps, a→b and b→a. `insert` only fills a→b, so the two sides
    need not mirror each other. */
module TwoWay {
  import opened Outcomes

  function Lookup<K, V>(m: map<K, V>, k: K): (r: Option<V>)
    ensures r.Some? <==> k in m
    ensures r.Some? ==> r.value == m[k]
  {
    if k in m then Some(m[k]) else None
  }

  class TwoWayHashMap<A(==, !new), B(==, !new)> {
    var aToB: map<A, B>
    var bToA: map<B, A>

    /** `new`: both directions empty. */
    constructor ()
      ensures aToB == map[] && bToA == map[]
    {
      aToB := map[];
      bToA := map[];
    }

    /** `insert`: maps `a` to `b` in the a→b table only. */
    method Insert(a: A, b: B)
      modifies this
      ensures aToB == old(aToB)[a := b]
      ensures bToA == old(bToA)
      ensures GetA(a) == Some(b) && ContainsA(a) && ContainsAB(a, b)
      ensures forall b' :: GetB(b') == old(GetB(b')) && ContainsB(b') == old(ContainsB(b'))
    {
      aToB := aToB[a := b];
    }

    function ContainsA(a: A): (r: bool)
      reads this
      ensures r <==> GetA(a).Some?
    {
      a in aToB
    }

    function ContainsB(b: B): (r: bool)
      reads this
      ensures r <==> GetB(b).Some?
    {
      b in bToA
    }

    /** `contains_ab`: `a` is mapped, and mapped to exactly `b`. */
    function ContainsAB(a: A, b: B): (r: bool)
      reads this
      ensures r <==> GetA(a) == Some(b)
      ensures r ==> ContainsA(a)
    {
      a in aToB && aToB[a] == b
    }

    function GetA(a: A): (r: Option<B>)
      reads this
      ensures r.Some? <==> a in aToB
      ensures r.Some? ==> r.value == aToB[a]
    {
      Lookup(aToB, a)
    }

    function GetB(b: B): (r: Option<A>)
      reads this
      ensures r.Some? <==> b in bToA
      ensures r.Some? ==> r.value == bToA[b]
    {
      Lookup(bToA, b)
    }

    /** `remove_a`: drops `a` from a→b and its old partner from b→a. */
    method RemoveA(a: A) returns (r: Option<B>)
      modifies this
      ensures r == old(GetA(a))
      ensures r.Some? ==> aToB == old(aToB) - {a} && bToA == old(bToA) - {r.value}
      ensures r.None? ==> aToB == old(aToB) && bToA == old(bToA)
      ensures !ContainsA(a)
    {
      if a in aToB {
        var b := aToB[a];
        aToB := aToB - {a};
        bToA := bToA - {b};
        r := Some(b);
      } else {
        r := None;
      }
    }

    /** `remove_b`: the mirror image of `remove_a`. */
    method RemoveB(b: B) returns (r: Option<A>)
      modifies this
      ensures r == old(GetB(b))
      ensures r.Some? ==> bToA == old(bToA) - {b} && aToB == old(aToB) - {r.value}
      ensures r.None? ==> aToB == old(aToB) && bToA == old(bToA)
      ensures !ContainsB(b)
    {
      if b in bToA {
        var a := bToA[b];
        bToA := bToA - {b};
        aToB := aToB - {a};
        r := Some(a);
      } else {
        r := None;
      }
    }
  }

  /** The one-sidedness of `insert`: after inserting into an empty map, b is still unknown. */
  method InsertIsOneSided<A(==, !new), B(==, !new)>(a: A, b: B) returns (m: TwoWayHashMap<A, B>)
    ensures m.ContainsAB(a, b) && !m.ContainsB(b) && m.GetB(b).None?
  {
    m := new TwoWayHashMap();
    m.Insert(a, b);
  }
}
