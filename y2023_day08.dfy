/** 2023 day 8: a desert map of nodes with a left and a right exit, walked by cycling through a list
    of turns. Part 1 counts the moves from AAA to ZZZ; part 2 takes the least common multiple of the
    moves from every node ending in 'A' to a node ending in 'Z'. */
module Y2023Day08 {
  import opened Outcomes
  import opened Text

  datatype Turn = Left | Right

  /** `NodeId([char; 3])`. */
  datatype NodeId = NodeId(c0: char, c1: char, c2: char)

  datatype Node = Node(id: NodeId, left: NodeId, right: NodeId)

  /** `DesertMap`: the turns and the nodes keyed by their ids. */
  datatype DesertMap = DesertMap(turns: seq<Turn>, nodes: map<NodeId, Node>)

  // ---------------------------------------------------------------------------------------------
  // Node ids

  function IdText(n: NodeId): string {
    [n.c0, n.c1, n.c2]
  }

  /** `NodeId::parse`: a byte length other than 3 is an error; three bytes that are fewer than three
      characters make the conversion to `[char; 3]` panic. */
  function ParseNodeId(s: string): (r: Result<NodeId>)
    ensures r.Ok? <==> |s| == 3 && IsAscii(s)
    ensures r.Ok? ==> IdText(r.value) == s
    ensures Utf8Len(s) == 3 && |s| != 3 ==> r == Err(UNWRAP_ERR)
  {
    Utf8LenAscii(s);
    if Utf8Len(s) != 3 then Err("invalid node id " + s)
    else if |s| != 3 then Err(UNWRAP_ERR)
    else Ok(NodeId(s[0], s[1], s[2]))
  }

  /** "ab" with a two-byte `a` is three bytes long: the conversion panics instead of failing. */
  lemma NodeIdOfTwoCharacters()
    ensures ParseNodeId("é1") == Err(UNWRAP_ERR)
  {
    assert Utf8Len("é1") == 3;
  }

  predicate IsStartingNode(n: NodeId) { n.c2 == 'A' }

  predicate IsEndingNode(n: NodeId) { n.c2 == 'Z' }

  // ---------------------------------------------------------------------------------------------
  // Nodes

  predicate IsParen(c: char) { c == '(' || c == ')' }

  /** `trim_matches(|c| c == ')' || c == '(')`: every leading and trailing bracket removed. */
  function TrimParens(s: string): (r: string)
    ensures r == [] || (!IsParen(r[0]) && !IsParen(r[|r| - 1]))
    ensures |r| <= |s|
    decreases |s|
  {
    if s == [] then []
    else if IsParen(s[0]) then TrimParens(s[1..])
    else if IsParen(s[|s| - 1]) then TrimParens(s[..|s| - 1])
    else s
  }

  lemma TrimParensUnchanged(s: string)
    requires s != [] && !IsParen(s[0]) && !IsParen(s[|s| - 1])
    ensures TrimParens(s) == s
  {
  }

  lemma TrimParensWrapped(s: string)
    requires s != [] && !IsParen(s[0]) && !IsParen(s[|s| - 1])
    ensures TrimParens("(" + s + ")") == s
  {
    var t := "(" + s + ")";
    assert t[1..] == s + ")";
    assert (s + ")")[..|s|] == s;
    TrimParensUnchanged(s);
  }

  /** `Node::parse`: "AAA = (BBB, CCC)"; the first failing step decides the error. */
  function ParseNode(line: string): (r: Result<Node>)
    ensures SplitOnce(line, " = ").None? ==> r.Err?
  {
    var err := "invalid node " + line;
    match SplitOnce(line, " = ")
    case None => Err(err)
    case Some((id, lr)) =>
      match SplitOnce(TrimParens(lr), ", ")
      case None => Err(err)
      case Some((l, rt)) =>
        var id :- ParseNodeId(id);
        var left :- ParseNodeId(l);
        var right :- ParseNodeId(rt);
        Ok(Node(id, left, right))
  }

  /** Node ids as the puzzle writes them: capital letters and digits. */
  predicate PlainChar(c: char) { 'A' <= c <= 'Z' || '0' <= c <= '9' }

  predicate PlainId(n: NodeId) { PlainChar(n.c0) && PlainChar(n.c1) && PlainChar(n.c2) }

  predicate PlainNode(n: Node) { PlainId(n.id) && PlainId(n.left) && PlainId(n.right) }

  function NodeText(n: Node): string {
    IdText(n.id) + " = (" + IdText(n.left) + ", " + IdText(n.right) + ")"
  }

  lemma IdTextParses(n: NodeId)
    requires PlainId(n)
    ensures ParseNodeId(IdText(n)) == Ok(n)
  {
    assert IsAscii(IdText(n));
  }

  /** A printed node parses back to the node. */
  lemma NodeRoundTrip(n: Node)
    requires PlainNode(n)
    ensures ParseNode(NodeText(n)) == Ok(n)
  {
    var id, l, rt := IdText(n.id), IdText(n.left), IdText(n.right);
    var lr := "(" + l + ", " + rt + ")";
    assert NodeText(n) == id + " = " + lr;
    SplitOnceAt(id, " = ", lr);
    assert lr == "(" + (l + ", " + rt) + ")";
    TrimParensWrapped(l + ", " + rt);
    SplitOnceAt(l, ", ", rt);
    IdTextParses(n.id);
    IdTextParses(n.left);
    IdTextParses(n.right);
  }

  // ---------------------------------------------------------------------------------------------
  // The map

  /** The turn characters; anything but L and R reaches `unreachable!()`. */
  function ParseTurns(s: string): (r: Result<seq<Turn>>)
    ensures r.Ok? <==> forall k :: 0 <= k < |s| ==> s[k] == 'L' || s[k] == 'R'
    ensures r.Ok? ==> |r.value| == |s| && forall k :: 0 <= k < |s| ==> (r.value[k] == Left <==> s[k] == 'L')
  {
    if s == [] then Ok([])
    else if s[0] != 'L' && s[0] != 'R' then Err(UNREACHABLE)
    else
      var rest :- ParseTurns(s[1..]);
      assert forall k :: 1 <= k < |s| ==> s[k] == s[1..][k - 1];
      Ok([if s[0] == 'L' then Left else Right] + rest)
  }

  /** `collect::<HashMap<_, _>>()`: a later node with the same id replaces an earlier one. */
  function NodeMap(ns: seq<Node>): (m: map<NodeId, Node>)
    ensures m.Keys == set n | n in ns :: n.id
    ensures forall k :: k in m ==> m[k].id == k && m[k] in ns
  {
    if ns == [] then map[]
    else
      var init := NodeMap(ns[..|ns| - 1]);
      var last := ns[|ns| - 1];
      assert ns == ns[..|ns| - 1] + [last];
      init[last.id := last]
  }

  /** The node a later one with the same id does not replace is the one kept. */
  lemma {:induction false} NodeMapLast(ns: seq<Node>, i: nat)
    requires i < |ns| && forall j :: i < j < |ns| ==> ns[j].id != ns[i].id
    ensures NodeMap(ns)[ns[i].id] == ns[i]
  {
    var init := ns[..|ns| - 1];
    if i < |ns| - 1 {
      NodeMapLast(init, i);
    }
  }

  predicate DistinctIds(ns: seq<Node>) {
    forall i, j :: 0 <= i < j < |ns| ==> ns[i].id != ns[j].id
  }

  /** With distinct ids every node is found under its own id. */
  lemma NodeMapDistinct(ns: seq<Node>, i: nat)
    requires DistinctIds(ns) && i < |ns|
    ensures NodeMap(ns)[ns[i].id] == ns[i]
  {
    NodeMapLast(ns, i);
  }

  /** `DesertMap::parse`: the turns, a blank line, then one node per line. */
  function ParseDesertMap(input: string): (r: Result<DesertMap>)
    ensures SplitOnce(input, "\n\n").None? ==> r.Err?
  {
    match SplitOnce(input, "\n\n")
    case None => Err("invalid input " + input)
    case Some((turns, nodes)) => ParseMapParts(turns, nodes)
  }

  /** The turns line and the node lines, once the blank line has split them. */
  function ParseMapParts(turns: string, nodes: string): (r: Result<DesertMap>)
    ensures r.Ok? <==> ParseTurns(turns).Ok? && CollectAll(Lines(nodes), ParseNode).Ok?
  {
    var ts :- ParseTurns(turns);
    var ns :- CollectAll(Lines(nodes), ParseNode);
    Ok(DesertMap(ts, NodeMap(ns)))
  }

  function TurnsText(ts: seq<Turn>): (s: string)
    ensures |s| == |ts| && forall k :: 0 <= k < |ts| ==> s[k] == (if ts[k] == Left then 'L' else 'R')
  {
    seq(|ts|, k requires 0 <= k < |ts| => if ts[k] == Left then 'L' else 'R')
  }

  function NodeTexts(ns: seq<Node>): (ls: seq<string>)
    ensures |ls| == |ns| && forall i :: 0 <= i < |ns| ==> ls[i] == NodeText(ns[i])
  {
    seq(|ns|, i requires 0 <= i < |ns| => NodeText(ns[i]))
  }

  function MapText(ts: seq<Turn>, ns: seq<Node>): string {
    TurnsText(ts) + "\n\n" + Join(NodeTexts(ns), "\n")
  }

  lemma {:induction false} TurnsRoundTrip(ts: seq<Turn>)
    ensures ParseTurns(TurnsText(ts)) == Ok(ts)
  {
    if ts != [] {
      TurnsRoundTrip(ts[1..]);
      assert TurnsText(ts)[1..] == TurnsText(ts[1..]);
      assert [ts[0]] + ts[1..] == ts;
    }
  }

  lemma NodeLine(n: Node)
    requires PlainNode(n)
    ensures NodeText(n) != [] && '\n' !in NodeText(n)
  {
    assert NodeText(n)[0] == n.id.c0;
    assert '\n' !in IdText(n.id) && '\n' !in IdText(n.left) && '\n' !in IdText(n.right);
  }

  lemma NodeLinesRoundTrip(ns: seq<Node>)
    requires forall i :: 0 <= i < |ns| ==> PlainNode(ns[i])
    ensures CollectAll(Lines(Join(NodeTexts(ns), "\n")), ParseNode) == Ok(ns)
  {
    var ls := NodeTexts(ns);
    forall i | 0 <= i < |ls|
      ensures ls[i] != [] && '\n' !in ls[i] && ParseNode(ls[i]) == Ok(ns[i])
    {
      NodeRoundTrip(ns[i]);
      NodeLine(ns[i]);
    }
    LinesOfJoin(ls);
    var r := CollectAll(ls, ParseNode);
    assert r.Ok? && r.value == ns;
  }

  /** A printed map parses back to its turns and the map of its nodes. */
  lemma MapRoundTrip(ts: seq<Turn>, ns: seq<Node>)
    requires forall i :: 0 <= i < |ns| ==> PlainNode(ns[i])
    ensures ParseDesertMap(MapText(ts, ns)) == Ok(DesertMap(ts, NodeMap(ns)))
  {
    assert '\n' !in TurnsText(ts);
    SplitOnceAt(TurnsText(ts), "\n\n", Join(NodeTexts(ns), "\n"));
    MapPartsRoundTrip(ts, ns);
  }

  lemma MapPartsRoundTrip(ts: seq<Turn>, ns: seq<Node>)
    requires forall i :: 0 <= i < |ns| ==> PlainNode(ns[i])
    ensures ParseMapParts(TurnsText(ts), Join(NodeTexts(ns), "\n")) == Ok(DesertMap(ts, NodeMap(ns)))
  {
    TurnsRoundTrip(ts);
    NodeLinesRoundTrip(ns);
  }

  // ---------------------------------------------------------------------------------------------
  // Walking

  /** `goto`: the exit the turn names; a node missing from the map makes `unwrap` panic. */
  function Goto(m: DesertMap, from: NodeId, t: Turn): (r: Result<NodeId>)
    ensures r.Ok? <==> from in m.nodes
    ensures r.Ok? ==> r.value == if t == Left then m.nodes[from].left else m.nodes[from].right
  {
    if from !in m.nodes then Err(UNWRAP_NONE)
    else if t == Left then Ok(m.nodes[from].left) else Ok(m.nodes[from].right)
  }

  /** The turn of move number `k` (from 0): the turns repeat forever. */
  function TurnAt(m: DesertMap, k: nat): Turn
    requires m.turns != []
  {
    m.turns[k % |m.turns|]
  }

  /** Where `n` moves from `start` lead, or the panic of the first move from a missing node. */
  function Position(m: DesertMap, start: NodeId, n: nat): Result<NodeId>
    requires m.turns != []
  {
    if n == 0 then Ok(start)
    else
      var p :- Position(m, start, n - 1);
      Goto(m, p, TurnAt(m, n - 1))
  }

  /** `n` moves reach a destination and no earlier move does (the start itself is not tested). */
  predicate ArrivesFirstAt(m: DesertMap, start: NodeId, isDest: NodeId -> bool, n: nat)
    requires m.turns != []
  {
    1 <= n && Position(m, start, n).Ok? && isDest(Position(m, start, n).value) &&
    forall k :: 1 <= k < n ==> Position(m, start, k).Ok? && !isDest(Position(m, start, k).value)
  }

  /** The outcome of `n_steps`: the number of moves, a panic, or a walk longer than the counter. */
  datatype Walk = Arrived(steps: nat) | Panicked(msg: string) | OutOfSteps

  /** `steps` is a `usize`: a walk longer than this overflows it. */
  const STEP_LIMIT: nat := U64_LIMIT - 1

  /** The walk from `loc`, reached after `steps` moves, with at most `fuel` more moves. */
  function WalkFrom(m: DesertMap, isDest: NodeId -> bool, loc: NodeId, steps: nat, fuel: nat): Walk
    requires m.turns != []
    decreases fuel
  {
    if fuel == 0 then OutOfSteps
    else
      match Goto(m, loc, TurnAt(m, steps))
      case Err(e) => Panicked(e)
      case Ok(next) => if isDest(next) then Arrived(steps + 1) else WalkFrom(m, isDest, next, steps + 1, fuel - 1)
  }

  /** `n_steps` with at most `fuel` moves; with no turns the cycle is empty and the loop falls through
      to `unreachable!()`. */
  function Steps(m: DesertMap, start: NodeId, isDest: NodeId -> bool, fuel: nat): (r: Walk)
    ensures m.turns == [] ==> r == Panicked(UNREACHABLE)
    ensures r.Arrived? ==> 1 <= r.steps <= fuel && ArrivesFirstAt(m, start, isDest, r.steps)
  {
    if m.turns == [] then Panicked(UNREACHABLE)
    else
      var w := WalkFrom(m, isDest, start, 0, fuel);
      WalkFromArrival(m, start, isDest, start, 0, fuel, if w.Arrived? then w.steps else 0);
      w
  }

  lemma {:induction false} WalkFromArrival(m: DesertMap, start: NodeId, isDest: NodeId -> bool, loc: NodeId, s: nat, fuel: nat, n: nat)
    requires m.turns != []
    requires Position(m, start, s) == Ok(loc)
    requires forall k :: 1 <= k <= s ==> Position(m, start, k).Ok? && !isDest(Position(m, start, k).value)
    ensures WalkFrom(m, isDest, loc, s, fuel) == Arrived(n) <==> s < n <= s + fuel && ArrivesFirstAt(m, start, isDest, n)
    decreases fuel
  {
    if fuel > 0 {
      var next := Goto(m, loc, TurnAt(m, s));
      assert Position(m, start, s + 1) == next;
      if next.Ok? && !isDest(next.value) {
        WalkFromArrival(m, start, isDest, next.value, s + 1, fuel - 1, n);
      }
    }
  }

  /** `n_steps` returns `n` exactly when the `n`-th move is the first to reach a destination. */
  lemma StepsArrival(m: DesertMap, start: NodeId, isDest: NodeId -> bool, fuel: nat, n: nat)
    requires m.turns != []
    ensures Steps(m, start, isDest, fuel) == Arrived(n) <==> n <= fuel && ArrivesFirstAt(m, start, isDest, n)
  {
    WalkFromArrival(m, start, isDest, start, 0, fuel, n);
  }

  /** `DesertMap::n_steps`: follow the cycling turns until a move lands on a destination. */
  method NSteps(m: DesertMap, start: NodeId, isDest: NodeId -> bool, fuel: nat) returns (r: Walk)
    ensures r == Steps(m, start, isDest, fuel)
  {
    if m.turns == [] {
      return Panicked(UNREACHABLE);
    }
    var current := start;
    var steps := 0;
    while steps < fuel
      invariant steps <= fuel
      invariant WalkFrom(m, isDest, current, steps, fuel - steps) == WalkFrom(m, isDest, start, 0, fuel)
    {
      var t := m.turns[steps % |m.turns|];
      var next := Goto(m, current, t);
      if next.Err? {
        return Panicked(next.msg);
      }
      steps := steps + 1;
      current := next.value;
      if isDest(current) {
        return Arrived(steps);
      }
    }
    return OutOfSteps;
  }

  function WalkResult(w: Walk): (r: Result<nat>)
    ensures r.Ok? <==> w.Arrived?
    ensures w.Arrived? ==> r.value == w.steps
  {
    match w
    case Arrived(n) => Ok(n)
    case Panicked(e) => Err(e)
    case OutOfSteps => Err("panic: attempt to add with overflow")
  }

  const AAA := NodeId('A', 'A', 'A')
  const ZZZ := NodeId('Z', 'Z', 'Z')

  predicate IsZZZ(n: NodeId) { n == ZZZ }

  /** `day08_1`: the moves from AAA to ZZZ. */
  method Part1(input: string) returns (r: Result<nat>)
    ensures ParseDesertMap(input).Err? ==> r == Err(ParseDesertMap(input).msg)
    ensures ParseDesertMap(input).Ok? ==> r == WalkResult(Steps(ParseDesertMap(input).value, AAA, IsZZZ, STEP_LIMIT))
  {
    var m :- ParseDesertMap(input);
    var w := NSteps(m, AAA, IsZZZ, STEP_LIMIT);
    return WalkResult(w);
  }

  // ---------------------------------------------------------------------------------------------
  // Least common multiples

  /** `m` is a multiple of `d`: `d` can be taken away from it until nothing is left. */
  predicate IsMultiple(m: nat, d: nat)
    requires d > 0
    decreases m
  {
    m == 0 || (m >= d && IsMultiple(m - d, d))
  }

  lemma {:induction false} MultipleOfOne(m: nat)
    ensures IsMultiple(m, 1)
  {
    if m > 0 {
      MultipleOfOne(m - 1);
    }
  }

  lemma MultipleAtLeast(m: nat, d: nat)
    requires d > 0 && m > 0 && IsMultiple(m, d)
    ensures m >= d
  {
  }

  lemma {:induction false} MultipleSum(x: nat, y: nat, d: nat)
    requires d > 0 && IsMultiple(x, d) && IsMultiple(y, d)
    ensures IsMultiple(x + y, d)
    decreases y
  {
    if y > 0 {
      MultipleSum(x, y - d, d);
      assert x + y - d == x + (y - d);
    }
  }

  lemma {:induction false} MultipleDifference(x: nat, y: nat, d: nat)
    requires d > 0 && IsMultiple(x, d) && IsMultiple(y, d) && x >= y
    ensures IsMultiple(x - y, d)
    decreases y
  {
    if y > 0 {
      MultipleDifference(x - d, y - d, d);
      assert x - y == (x - d) - (y - d);
    }
  }

  /** Divisibility is transitive. */
  lemma {:induction false} MultipleTransitive(m: nat, l: nat, a: nat)
    requires a > 0 && l > 0 && IsMultiple(m, l) && IsMultiple(l, a)
    ensures IsMultiple(m, a)
    decreases m
  {
    if m > 0 {
      MultipleTransitive(m - l, l, a);
      MultipleSum(m - l, l, a);
    }
  }

  /** `a` added up `n` times. */
  function Times(a: nat, n: nat): nat {
    if n == 0 then 0 else Times(a, n - 1) + a
  }

  lemma {:induction false} TimesMultiple(a: nat, n: nat)
    requires a > 0
    ensures IsMultiple(Times(a, n), a)
  {
    if n > 0 {
      TimesMultiple(a, n - 1);
      assert IsMultiple(a, a) by { assert IsMultiple(a - a, a); }
      MultipleSum(Times(a, n - 1), a, a);
    }
  }

  lemma {:induction false} TimesIsProduct(a: nat, n: nat)
    ensures Times(a, n) == a * n
  {
    if n > 0 {
      TimesIsProduct(a, n - 1);
    }
  }

  predicate CommonMultiple(m: nat, a: nat, b: nat)
    requires a > 0 && b > 0
  {
    IsMultiple(m, a) && IsMultiple(m, b)
  }

  /** The least positive common multiple from `m` up to the known common multiple `bound`. */
  function LeastFrom(a: nat, b: nat, m: nat, bound: nat): (l: nat)
    requires a > 0 && b > 0 && 1 <= m <= bound && CommonMultiple(bound, a, b)
    requires forall x :: 1 <= x < m ==> !CommonMultiple(x, a, b)
    ensures m <= l <= bound && CommonMultiple(l, a, b)
    ensures forall x :: 1 <= x < l ==> !CommonMultiple(x, a, b)
    decreases bound - m
  {
    if CommonMultiple(m, a, b) then m else LeastFrom(a, b, m + 1, bound)
  }

  /** `Integer::lcm` of two positive numbers: the least positive common multiple. */
  function Lcm(a: nat, b: nat): (l: nat)
    requires a > 0 && b > 0
    ensures l > 0 && CommonMultiple(l, a, b)
    ensures forall x :: 1 <= x < l ==> !CommonMultiple(x, a, b)
  {
    TimesIsProduct(a, b);
    TimesIsProduct(b, a);
    TimesMultiple(a, b);
    TimesMultiple(b, a);
    LeastFrom(a, b, 1, Times(a, b))
  }

  /** Every common multiple is a multiple of the lcm. */
  lemma {:induction false} LcmDivides(a: nat, b: nat, m: nat)
    requires a > 0 && b > 0 && CommonMultiple(m, a, b)
    ensures IsMultiple(m, Lcm(a, b))
    decreases m
  {
    var l := Lcm(a, b);
    if m >= l {
      MultipleDifference(m, l, a);
      MultipleDifference(m, l, b);
      LcmDivides(a, b, m - l);
    } else {
      assert m == 0;
    }
  }

  ghost predicate CommonMultipleOf(m: nat, vs: set<nat>) {
    forall v :: v in vs ==> v > 0 && IsMultiple(m, v)
  }

  /** `l` is the least common multiple of `vs`: a positive common multiple dividing all others. */
  ghost predicate IsLcmOf(l: nat, vs: set<nat>) {
    l > 0 && CommonMultipleOf(l, vs) && forall m :: CommonMultipleOf(m, vs) ==> IsMultiple(m, l)
  }

  /** There is only one least common multiple, whatever order it was folded in. */
  lemma LcmOfUnique(l1: nat, l2: nat, vs: set<nat>)
    requires IsLcmOf(l1, vs) && IsLcmOf(l2, vs)
    ensures l1 == l2
  {
    MultipleAtLeast(l1, l2);
    MultipleAtLeast(l2, l1);
  }

  lemma LcmOfEmpty()
    ensures IsLcmOf(1, {})
  {
    forall m: nat
      ensures IsMultiple(m, 1)
    {
      MultipleOfOne(m);
    }
  }

  /** One step of the fold `acc.lcm(&v)` extends the set the accumulator is the lcm of. */
  lemma LcmOfStep(l: nat, vs: set<nat>, v: nat)
    requires IsLcmOf(l, vs) && v > 0
    ensures IsLcmOf(Lcm(l, v), vs + {v})
  {
    var l' := Lcm(l, v);
    forall u | u in vs
      ensures IsMultiple(l', u)
    {
      MultipleTransitive(l', l, u);
    }
    forall m: nat | CommonMultipleOf(m, vs + {v})
      ensures IsMultiple(m, l')
    {
      assert CommonMultipleOf(m, vs);
      LcmDivides(l, v, m);
    }
  }

  // ---------------------------------------------------------------------------------------------
  // Part 2

  function Starts(m: DesertMap): set<NodeId> {
    set k | k in m.nodes && IsStartingNode(k)
  }

  /** The step counts of the walks from `ss` that arrive. */
  function StepCounts(m: DesertMap, ss: set<NodeId>): set<nat> {
    set s | s in ss && Steps(m, s, IsEndingNode, STEP_LIMIT).Arrived? :: Steps(m, s, IsEndingNode, STEP_LIMIT).steps
  }

  predicate AllArrive(m: DesertMap, ss: set<NodeId>) {
    forall s :: s in ss ==> Steps(m, s, IsEndingNode, STEP_LIMIT).Arrived?
  }

  lemma ArrivedPositive(m: DesertMap, s: NodeId)
    requires Steps(m, s, IsEndingNode, STEP_LIMIT).Arrived?
    ensures Steps(m, s, IsEndingNode, STEP_LIMIT).steps > 0
  {
    StepsArrival(m, s, IsEndingNode, STEP_LIMIT, Steps(m, s, IsEndingNode, STEP_LIMIT).steps);
  }

  /** The fold of `day08_2` over the starting nodes, taken in the hash map's order, which is left
      open here: the lcm does not depend on it. */
  method LcmOfSteps(m: DesertMap) returns (r: Result<nat>)
    ensures r.Ok? <==> AllArrive(m, Starts(m))
    ensures r.Ok? ==> IsLcmOf(r.value, StepCounts(m, Starts(m)))
  {
    var starts := Starts(m);
    var remaining := starts;
    var acc := 1;
    LcmOfEmpty();
    assert StepCounts(m, {}) == {};
    while remaining != {}
      invariant remaining <= starts
      invariant AllArrive(m, starts - remaining)
      invariant IsLcmOf(acc, StepCounts(m, starts - remaining))
      decreases |remaining|
    {
      var s :| s in remaining;
      var w := NSteps(m, s, IsEndingNode, STEP_LIMIT);
      if !w.Arrived? {
        return Err(WalkResult(w).msg);
      }
      ArrivedPositive(m, s);
      LcmOfStep(acc, StepCounts(m, starts - remaining), w.steps);
      assert StepCounts(m, starts - (remaining - {s})) == StepCounts(m, starts - remaining) + {w.steps} by {
        assert starts - (remaining - {s}) == (starts - remaining) + {s};
      }
      acc := Lcm(acc, w.steps);
      remaining := remaining - {s};
    }
    assert starts - remaining == starts;
    return Ok(acc);
  }

  /** `day08_2`. */
  method Part2(input: string) returns (r: Result<nat>)
    ensures ParseDesertMap(input).Err? ==> r == Err(ParseDesertMap(input).msg)
    ensures ParseDesertMap(input).Ok? ==> (r.Ok? <==> AllArrive(ParseDesertMap(input).value, Starts(ParseDesertMap(input).value)))
    ensures r.Ok? ==> IsLcmOf(r.value, StepCounts(ParseDesertMap(input).value, Starts(ParseDesertMap(input).value)))
  {
    var m :- ParseDesertMap(input);
    r := LcmOfSteps(m);
  }

  // ---------------------------------------------------------------------------------------------
  // The unit tests, on the parsed maps (`MapRoundTrip` gives the parse)

  const BBB := NodeId('B', 'B', 'B')
  const CCC := NodeId('C', 'C', 'C')
  const DDD := NodeId('D', 'D', 'D')
  const EEE := NodeId('E', 'E', 'E')
  const GGG := NodeId('G', 'G', 'G')

  function SampleNodes1(): seq<Node> {
    [Node(AAA, BBB, CCC), Node(BBB, DDD, EEE), Node(CCC, ZZZ, GGG), Node(DDD, DDD, DDD),
     Node(EEE, EEE, EEE), Node(GGG, GGG, GGG), Node(ZZZ, ZZZ, ZZZ)]
  }

  /** RL from AAA: right to CCC, then left to ZZZ. */
  lemma WalkFirst(m: DesertMap)
    requires m.turns == [Right, Left]
    requires AAA in m.nodes && m.nodes[AAA].right == CCC && CCC in m.nodes && m.nodes[CCC].left == ZZZ
    ensures Steps(m, AAA, IsZZZ, STEP_LIMIT) == Arrived(2)
  {
    assert Position(m, AAA, 1) == Ok(CCC);
    assert Position(m, AAA, 2) == Ok(ZZZ);
    StepsArrival(m, AAA, IsZZZ, STEP_LIMIT, 2);
  }

  /** TEST_01_1: two moves. */
  lemma SamplePart1First()
    ensures Steps(DesertMap([Right, Left], NodeMap(SampleNodes1())), AAA, IsZZZ, STEP_LIMIT) == Arrived(2)
  {
    var ns := SampleNodes1();
    NodeMapLast(ns, 0);
    NodeMapLast(ns, 2);
    WalkFirst(DesertMap([Right, Left], NodeMap(ns)));
  }

  function SampleNodes2(): seq<Node> {
    [Node(AAA, BBB, BBB), Node(BBB, AAA, ZZZ), Node(ZZZ, ZZZ, ZZZ)]
  }

  /** LLR from AAA bounces between AAA and BBB until the sixth move. */
  lemma WalkSecond(m: DesertMap)
    requires m.turns == [Left, Left, Right]
    requires AAA in m.nodes && m.nodes[AAA].left == BBB && m.nodes[AAA].right == BBB
    requires BBB in m.nodes && m.nodes[BBB].left == AAA && m.nodes[BBB].right == ZZZ
    ensures Steps(m, AAA, IsZZZ, STEP_LIMIT) == Arrived(6)
  {
    assert Position(m, AAA, 1) == Ok(BBB);
    assert Position(m, AAA, 2) == Ok(AAA);
    assert Position(m, AAA, 3) == Ok(BBB);
    assert Position(m, AAA, 4) == Ok(AAA);
    assert Position(m, AAA, 5) == Ok(BBB);
    assert Position(m, AAA, 6) == Ok(ZZZ);
    StepsArrival(m, AAA, IsZZZ, STEP_LIMIT, 6);
  }

  /** TEST_01_2: six moves. */
  lemma SamplePart1Second()
    ensures Steps(DesertMap([Left, Left, Right], NodeMap(SampleNodes2())), AAA, IsZZZ, STEP_LIMIT) == Arrived(6)
  {
    var ns := SampleNodes2();
    NodeMapLast(ns, 0);
    NodeMapLast(ns, 1);
    WalkSecond(DesertMap([Left, Left, Right], NodeMap(ns)));
  }

  const A11 := NodeId('1', '1', 'A')
  const B11 := NodeId('1', '1', 'B')
  const Z11 := NodeId('1', '1', 'Z')
  const A22 := NodeId('2', '2', 'A')
  const B22 := NodeId('2', '2', 'B')
  const C22 := NodeId('2', '2', 'C')
  const Z22 := NodeId('2', '2', 'Z')
  const XXX := NodeId('X', 'X', 'X')

  function SampleNodes3(): seq<Node> {
    [Node(A11, B11, XXX), Node(B11, XXX, Z11), Node(Z11, B11, XXX), Node(A22, B22, XXX),
     Node(B22, C22, C22), Node(C22, Z22, Z22), Node(Z22, B22, B22), Node(XXX, XXX, XXX)]
  }

  function SampleMap3(): DesertMap {
    DesertMap([Left, Right], NodeMap(SampleNodes3()))
  }

  lemma SampleKeys3()
    ensures forall k :: k in SampleMap3().nodes ==> k in {A11, B11, Z11, A22, B22, C22, Z22, XXX}
  {
    var ns := SampleNodes3();
    forall k | k in NodeMap(ns)
      ensures k in {A11, B11, Z11, A22, B22, C22, Z22, XXX}
    {
      var n :| n in ns && n.id == k;
    }
  }

  lemma SampleStarts3()
    ensures Starts(SampleMap3()) == {A11, A22}
  {
    SampleKeys3();
    SampleLookups3();
  }

  /** LR from 11A: 11B, 11Z. */
  lemma WalkThird(m: DesertMap)
    requires m.turns == [Left, Right]
    requires A11 in m.nodes && m.nodes[A11].left == B11 && B11 in m.nodes && m.nodes[B11].right == Z11
    ensures Steps(m, A11, IsEndingNode, STEP_LIMIT) == Arrived(2)
  {
    assert Position(m, A11, 1) == Ok(B11);
    assert Position(m, A11, 2) == Ok(Z11);
    StepsArrival(m, A11, IsEndingNode, STEP_LIMIT, 2);
  }

  /** LR from 22A: 22B, 22C, 22Z. */
  lemma WalkFourth(m: DesertMap)
    requires m.turns == [Left, Right]
    requires A22 in m.nodes && m.nodes[A22].left == B22 && B22 in m.nodes && m.nodes[B22].right == C22
    requires C22 in m.nodes && m.nodes[C22].left == Z22
    ensures Steps(m, A22, IsEndingNode, STEP_LIMIT) == Arrived(3)
  {
    assert Position(m, A22, 1) == Ok(B22);
    assert Position(m, A22, 2) == Ok(C22);
    assert Position(m, A22, 3) == Ok(Z22);
    StepsArrival(m, A22, IsEndingNode, STEP_LIMIT, 3);
  }

  lemma SampleWalks3()
    ensures Steps(SampleMap3(), A11, IsEndingNode, STEP_LIMIT) == Arrived(2)
    ensures Steps(SampleMap3(), A22, IsEndingNode, STEP_LIMIT) == Arrived(3)
  {
    SampleLookups3();
    WalkThird(SampleMap3());
    WalkFourth(SampleMap3());
  }

  lemma SampleLookups3()
    ensures SampleMap3().nodes[A11] == Node(A11, B11, XXX) && SampleMap3().nodes[B11] == Node(B11, XXX, Z11)
    ensures SampleMap3().nodes[A22] == Node(A22, B22, XXX) && SampleMap3().nodes[B22] == Node(B22, C22, C22)
    ensures SampleMap3().nodes[C22] == Node(C22, Z22, Z22)
  {
    var ns := SampleNodes3();
    SampleLookup3(0);
    SampleLookup3(1);
    SampleLookup3(3);
    SampleLookup3(4);
    SampleLookup3(5);
  }

  lemma SampleLookup3(i: nat)
    requires i < 8
    ensures SampleMap3().nodes[SampleNodes3()[i].id] == SampleNodes3()[i]
  {
    NodeMapLast(SampleNodes3(), i);
  }

  /** 6 is the only least common multiple of 2 and 3. */
  lemma LcmOfTwoAndThree()
    ensures forall l :: IsLcmOf(l, {2, 3}) <==> l == 6
  {
    LcmOfEmpty();
    LcmOfStep(1, {}, 2);
    assert Lcm(1, 2) == 2;
    LcmOfStep(2, {2}, 3);
    assert Lcm(2, 3) == 6;
    assert {} + {2} + {3} == {2, 3};
    forall l | IsLcmOf(l, {2, 3})
      ensures l == 6
    {
      LcmOfUnique(l, 6, {2, 3});
    }
  }

  /** Two starts whose walks both arrive: their step counts are the two counts. */
  lemma StepCountsOfTwo(m: DesertMap, a: NodeId, b: NodeId, x: nat, y: nat)
    requires Steps(m, a, IsEndingNode, STEP_LIMIT) == Arrived(x)
    requires Steps(m, b, IsEndingNode, STEP_LIMIT) == Arrived(y)
    ensures AllArrive(m, {a, b}) && StepCounts(m, {a, b}) == {x, y}
  {
    var counts := StepCounts(m, {a, b});
    assert x in counts && y in counts;
    assert forall c :: c in counts ==> c == x || c == y;
  }

  /** TEST_02: the walks take 2 and 3 moves, and 6 is their only least common multiple, so the
      answer is 6 in either key order. */
  lemma SamplePart2()
    ensures AllArrive(SampleMap3(), Starts(SampleMap3()))
    ensures StepCounts(SampleMap3(), Starts(SampleMap3())) == {2, 3}
    ensures forall l :: IsLcmOf(l, StepCounts(SampleMap3(), Starts(SampleMap3()))) <==> l == 6
  {
    SampleStarts3();
    SampleWalks3();
    StepCountsOfTwo(SampleMap3(), A11, A22, 2, 3);
    LcmOfTwoAndThree();
  }
}
