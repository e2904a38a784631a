/** 2015 day 3: Santa (and Robo-Santa) deliver presents on an infinite grid of houses. */
module Y2015Day03 {
  import opened Outcomes

  datatype Dir = Up | Down | Left | Right

  type Pos = (int, int)

  /** `Dir::shift`: one step in the direction. */
  function Shift(d: Dir, p: Pos): (q: Pos)
    ensures (q.0 == p.0 && (q.1 == p.1 + 1 || q.1 == p.1 - 1)) || (q.1 == p.1 && (q.0 == p.0 + 1 || q.0 == p.0 - 1))
    ensures d == Up <==> q == (p.0, p.1 + 1)
    ensures d == Down <==> q == (p.0, p.1 - 1)
    ensures d == Left <==> q == (p.0 - 1, p.1)
    ensures d == Right <==> q == (p.0 + 1, p.1)
  {
    match d
    case Up => (p.0, p.1 + 1)
    case Down => (p.0, p.1 - 1)
    case Left => (p.0 - 1, p.1)
    case Right => (p.0 + 1, p.1)
  }

  predicate IsMove(c: char) { c == '^' || c == 'v' || c == '<' || c == '>' }

  function DirOf(c: char): Dir
    requires IsMove(c)
  {
    if c == '^' then Up else if c == 'v' then Down else if c == '<' then Left else Right
  }

  /** `parse`: one direction per character; the first other character is an error. */
  function Parse(s: string): (r: Result<seq<Dir>>)
    ensures r.Ok? <==> forall k :: 0 <= k < |s| ==> IsMove(s[k])
    ensures r.Ok? ==> |r.value| == |s| && forall k :: 0 <= k < |s| ==> r.value[k] == DirOf(s[k])
  {
    if s == [] then Ok([])
    else if !IsMove(s[0]) then Err("bad input " + [s[0]])
    else
      var rest :- Parse(s[1..]);
      assert forall k :: 1 <= k < |s| ==> s[k] == s[1..][k - 1];
      Ok([DirOf(s[0])] + rest)
  }

  /** Where a walker starting at the origin ends up after the moves `ds`. */
  function End(ds: seq<Dir>): Pos {
    if ds == [] then (0, 0) else Shift(ds[|ds| - 1], End(ds[..|ds| - 1]))
  }

  /** Every house a walker starting at the origin visits, the origin included. */
  function Houses(ds: seq<Dir>): (h: set<Pos>)
    ensures (0, 0) in h
  {
    if ds == [] then {(0, 0)} else Houses(ds[..|ds| - 1]) + {End(ds)}
  }

  /** The houses are exactly the positions after each prefix of the moves. */
  lemma {:induction false} HousesIff(ds: seq<Dir>, p: Pos)
    ensures p in Houses(ds) <==> exists k :: 0 <= k <= |ds| && End(ds[..k]) == p
  {
    if ds == [] {
      assert ds[..0] == [];
    } else {
      var init := ds[..|ds| - 1];
      HousesIff(init, p);
      assert ds[..|ds|] == ds;
      forall k | 0 <= k <= |init|
        ensures ds[..k] == init[..k]
      {
      }
    }
  }

  /** One walker visits at least one house and at most one new house per move. */
  lemma {:induction false} HousesBound(ds: seq<Dir>)
    ensures 1 <= |Houses(ds)| <= |ds| + 1
  {
    if ds != [] {
      HousesBound(ds[..|ds| - 1]);
    }
  }

  lemma HousesSnoc(ds: seq<Dir>, d: Dir)
    ensures End(ds + [d]) == Shift(d, End(ds))
    ensures Houses(ds + [d]) == Houses(ds) + {Shift(d, End(ds))}
  {
    assert (ds + [d])[..|ds|] == ds;
  }

  /** The walk of `day03_1`. */
  method Walk(ds: seq<Dir>) returns (n: nat)
    ensures n == |Houses(ds)|
  {
    var houses: set<Pos> := {(0, 0)};
    var pos: Pos := (0, 0);
    for i := 0 to |ds|
      invariant pos == End(ds[..i]) && houses == Houses(ds[..i])
    {
      HousesSnoc(ds[..i], ds[i]);
      assert ds[..i + 1] == ds[..i] + [ds[i]];
      pos := Shift(ds[i], pos);
      houses := houses + {pos};
    }
    assert ds[..|ds|] == ds;
    n := |houses|;
  }

  /** `day03_1`: the number of distinct houses Santa visits. */
  method Part1(input: string) returns (r: Result<nat>)
    ensures r.Ok? <==> Parse(input).Ok?
    ensures r.Ok? ==> r.value == |Houses(Parse(input).value)| && 1 <= r.value <= |input| + 1
  {
    var parsed := Parse(input);
    if parsed.Err? {
      return Err(parsed.msg);
    }
    var n := Walk(parsed.value);
    HousesBound(parsed.value);
    return Ok(n);
  }

  /** The moves at even 0-based positions. */
  function Evens<T>(s: seq<T>): (r: seq<T>)
    ensures |r| == (|s| + 1) / 2
  {
    if s == [] then []
    else if (|s| - 1) % 2 == 0 then Evens(s[..|s| - 1]) + [s[|s| - 1]]
    else Evens(s[..|s| - 1])
  }

  /** The moves at odd 0-based positions. */
  function Odds<T>(s: seq<T>): (r: seq<T>)
    ensures |r| == |s| / 2
  {
    if s == [] then []
    else if (|s| - 1) % 2 == 1 then Odds(s[..|s| - 1]) + [s[|s| - 1]]
    else Odds(s[..|s| - 1])
  }

  lemma EvensOddsSnoc<T>(s: seq<T>, x: T)
    ensures Evens(s + [x]) == if |s| % 2 == 0 then Evens(s) + [x] else Evens(s)
    ensures Odds(s + [x]) == if |s| % 2 == 1 then Odds(s) + [x] else Odds(s)
  {
    assert (s + [x])[..|s|] == s;
  }

  /** Evens and odds deal out the moves: the k-th of each is the move at position 2k, resp. 2k+1. */
  lemma {:induction false} EvensOddsIndex<T>(s: seq<T>)
    ensures forall k :: 0 <= k < |Evens(s)| ==> Evens(s)[k] == s[2 * k]
    ensures forall k :: 0 <= k < |Odds(s)| ==> Odds(s)[k] == s[2 * k + 1]
  {
    if s != [] {
      var init := s[..|s| - 1];
      EvensOddsIndex(init);
      EvensOddsSnoc(init, s[|s| - 1]);
      assert init + [s[|s| - 1]] == s;
    }
  }

  /** Both walkers' houses: the origin, and every house either walker visits. */
  function SharedHouses(ds: seq<Dir>): set<Pos> {
    Houses(Odds(ds)) + Houses(Evens(ds))
  }

  /** One more move goes to the first walker after an odd number of moves, else to the second. */
  lemma SharedSnoc(s: seq<Dir>, d: Dir)
    ensures |s| % 2 == 1 ==> End(Odds(s + [d])) == Shift(d, End(Odds(s))) && End(Evens(s + [d])) == End(Evens(s))
    ensures |s| % 2 == 1 ==> SharedHouses(s + [d]) == SharedHouses(s) + {Shift(d, End(Odds(s)))}
    ensures |s| % 2 == 0 ==> End(Evens(s + [d])) == Shift(d, End(Evens(s))) && End(Odds(s + [d])) == End(Odds(s))
    ensures |s| % 2 == 0 ==> SharedHouses(s + [d]) == SharedHouses(s) + {Shift(d, End(Evens(s)))}
  {
    EvensOddsSnoc(s, d);
    HousesSnoc(Odds(s), d);
    HousesSnoc(Evens(s), d);
  }

  /** The state of the alternating walk after the first `i` moves. */
  predicate WalkedTwo(ds: seq<Dir>, i: nat, first: Pos, second: Pos, houses: set<Pos>)
    requires i <= |ds|
  {
    first == End(Odds(ds[..i])) && second == End(Evens(ds[..i])) && houses == SharedHouses(ds[..i])
  }

  lemma WalkTwoStep(ds: seq<Dir>, i: nat, first: Pos, second: Pos, houses: set<Pos>)
    requires i < |ds| && WalkedTwo(ds, i, first, second, houses)
    ensures (i + 1) % 2 == 0 ==> WalkedTwo(ds, i + 1, Shift(ds[i], first), second, houses + {Shift(ds[i], first)})
    ensures (i + 1) % 2 == 1 ==> WalkedTwo(ds, i + 1, first, Shift(ds[i], second), houses + {Shift(ds[i], second)})
  {
    assert ds[..i + 1] == ds[..i] + [ds[i]];
    SharedSnoc(ds[..i], ds[i]);
  }

  /** The alternating walk of `day03_2`: the move at index i goes to the first walker when i + 1
      is even and to the second otherwise, both starting at the origin. */
  method WalkTwo(ds: seq<Dir>) returns (n: nat)
    ensures n == |SharedHouses(ds)|
  {
    var houses: set<Pos> := {(0, 0)};
    var first: Pos := (0, 0);
    var second: Pos := (0, 0);
    assert ds[..0] == [];
    for i := 0 to |ds|
      invariant WalkedTwo(ds, i, first, second, houses)
    {
      WalkTwoStep(ds, i, first, second, houses);
      if (i + 1) % 2 == 0 {
        first := Shift(ds[i], first);
        houses := houses + {first};
      } else {
        second := Shift(ds[i], second);
        houses := houses + {second};
      }
    }
    assert ds[..|ds|] == ds;
    n := |houses|;
  }

  /** The two walkers together cover at most one new house per move. */
  lemma SharedHousesBound(ds: seq<Dir>)
    ensures 1 <= |SharedHouses(ds)| <= |ds| + 1
  {
    HousesBound(Odds(ds));
    HousesBound(Evens(ds));
    var a, b := Houses(Odds(ds)), Houses(Evens(ds));
    assert (0, 0) in a * b;
    assert |a * b| >= 1 by {
      assert {(0, 0)} <= a * b;
    }
    assert |a + b| == |a| + |b| - |a * b|;
  }

  /** `day03_2`: the number of distinct houses Santa and Robo-Santa visit. */
  method Part2(input: string) returns (r: Result<nat>)
    ensures r.Ok? <==> Parse(input).Ok?
    ensures r.Ok? ==> r.value == |SharedHouses(Parse(input).value)| && 1 <= r.value <= |input| + 1
  {
    var parsed := Parse(input);
    if parsed.Err? {
      return Err(parsed.msg);
    }
    var n := WalkTwo(parsed.value);
    SharedHousesBound(parsed.value);
    return Ok(n);
  }

  /** Adding a move adds one house, or none when the walker has been there before. */
  lemma HousesCount(ds: seq<Dir>, d: Dir)
    ensures End(ds + [d]) == Shift(d, End(ds))
    ensures |Houses(ds + [d])| == if Shift(d, End(ds)) in Houses(ds) then |Houses(ds)| else |Houses(ds)| + 1
  {
    HousesSnoc(ds, d);
    var h, p := Houses(ds), Shift(d, End(ds));
    if p in h {
      assert h + {p} == h;
    } else {
      assert h + {p} == h + {p};
    }
  }

  lemma FixtureRight()
    ensures |Houses([Right])| == 2
  {
    HousesCount([], Right);
    assert [Right] == [] + [Right];
  }

  /** The counts of a walk, one move at a time: each prefix ends where the moves so far lead and
      holds one more house than the shorter one exactly when that end is new. */
  lemma PrefixCount(ds: seq<Dir>, k: nat)
    requires k < |ds|
    ensures End(ds[..k + 1]) == Shift(ds[k], End(ds[..k]))
    ensures Houses(ds[..k + 1]) == Houses(ds[..k]) + {End(ds[..k + 1])}
    ensures |Houses(ds[..k + 1])| == if End(ds[..k + 1]) in Houses(ds[..k]) then |Houses(ds[..k])| else |Houses(ds[..k])| + 1
  {
    assert ds[..k + 1] == ds[..k] + [ds[k]];
    HousesCount(ds[..k], ds[k]);
    HousesSnoc(ds[..k], ds[k]);
  }

  /** Up, right, down, left: a square of four houses. */
  lemma SquareWalk(ds: seq<Dir>)
    requires |ds| == 4 && ds[0] == Up && ds[1] == Right && ds[2] == Down && ds[3] == Left
    ensures |Houses(ds)| == 4
  {
    assert ds[..0] == [] && ds[..4] == ds;
    PrefixCount(ds, 0);
    PrefixCount(ds, 1);
    PrefixCount(ds, 2);
    PrefixCount(ds, 3);
    assert End(ds[..1]) == (0, 1) && End(ds[..2]) == (1, 1) && End(ds[..3]) == (1, 0);
  }

  lemma FixtureSquare()
    ensures |Houses([Up, Right, Down, Left])| == 4
  {
    SquareWalk([Up, Right, Down, Left]);
  }

  /** Up, down, up, down: back and forth between two houses. */
  lemma UpDownWalk(ds: seq<Dir>)
    requires |ds| == 4 && ds[0] == Up && ds[1] == Down && ds[2] == Up && ds[3] == Down
    ensures |Houses(ds)| == 2
  {
    assert ds[..0] == [] && ds[..4] == ds;
    PrefixCount(ds, 0);
    PrefixCount(ds, 1);
    PrefixCount(ds, 2);
    PrefixCount(ds, 3);
    assert End(ds[..1]) == (0, 1) && End(ds[..2]) == (0, 0) && End(ds[..3]) == (0, 1);
  }

  lemma FixtureUpDown()
    ensures |Houses([Up, Down, Up, Down])| == 2
  {
    UpDownWalk([Up, Down, Up, Down]);
  }

  lemma FixtureShared()
    ensures |SharedHouses([Up, Down])| == 3
  {
    assert Odds([Up, Down]) == [Down] && Evens([Up, Down]) == [Up];
    HousesSnoc([], Up);
    HousesSnoc([], Down);
    assert [Up] == [] + [Up] && [Down] == [] + [Down];
    assert SharedHouses([Up, Down]) == {(0, 0), (0, -1), (0, 1)};
  }
}
