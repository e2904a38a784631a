/** 2023 day 2: games of cubes drawn from a bag, one line per game. */
module Y2023Day02 {
  import opened Outcomes
  import opened Text
  import opened LineSums

  /** One reveal: how many cubes of each colour were shown. */
  datatype Turn = Turn(red: nat, green: nat, blue: nat)

  datatype Game = Game(id: nat, turns: seq<Turn>)

  datatype Colour = Red | Green | Blue

  /** The cubes seen so far in a reveal; a colour not yet mentioned is `None`. */
  datatype Seen = Seen(r: Option<nat>, g: Option<nat>, b: Option<nat>)

  // ---------------------------------------------------------------------------------------------
  // Parsing

  function ColourOf(name: string): Option<Colour> {
    if name == "red" then Some(Red) else if name == "green" then Some(Green)
    else if name == "blue" then Some(Blue) else None
  }

  /** One pull "N colour" of `Turn::parse`. */
  function ParsePull(pull: string, turn: string): (r: Result<(nat, Colour)>)
    ensures r.Ok? <==> (SplitOnce(pull, " ").Some? &&
      ParseUnsigned(SplitOnce(pull, " ").value.0, U128_BOUND).Some? && ColourOf(SplitOnce(pull, " ").value.1).Some?)
    ensures r.Ok? ==> var n, c := SplitOnce(pull, " ").value.0, SplitOnce(pull, " ").value.1;
      r.value == (ParseUnsigned(n, U128_BOUND).value, ColourOf(c).value)
    ensures SplitOnce(pull, " ").None? ==> r == Err("malformed turn: " + turn)
    ensures SplitOnce(pull, " ").Some? && ParseUnsigned(SplitOnce(pull, " ").value.0, U128_BOUND).None? ==>
      var n := SplitOnce(pull, " ").value.0;
      IntError(n, false, U128_BOUND).Some? && r == Err(IntErrorMessage(n, false, U128_BOUND))
    ensures SplitOnce(pull, " ").Some? ==> var n, c := SplitOnce(pull, " ").value.0, SplitOnce(pull, " ").value.1;
      ParseUnsigned(n, U128_BOUND).Some? && ColourOf(c).None? ==> r == Err("malformed turn: " + turn)
  {
    match SplitOnce(pull, " ")
    case None => Err("malformed turn: " + turn)
    case Some((number, colour)) =>
      match ParseUnsigned(number, U128_BOUND)
      case None => ParseUnsignedError(number, U128_BOUND); Err(IntErrorMessage(number, false, U128_BOUND))
      case Some(n) =>
        match ColourOf(colour)
        case None => Err("malformed turn: " + turn)
        case Some(c) => Ok((n, c))
  }

  function Record(s: Seen, n: nat, c: Colour): Seen {
    match c
    case Red => s.(r := Some(n))
    case Green => s.(g := Some(n))
    case Blue => s.(b := Some(n))
  }

  /** The pulls of a reveal parsed in order; the first bad pull is the error. */
  function ParsePulls(pulls: seq<string>, turn: string): (r: Result<seq<(nat, Colour)>>)
    ensures r.Ok? <==> forall i :: 0 <= i < |pulls| ==> ParsePull(pulls[i], turn).Ok?
    ensures r.Ok? ==> |r.value| == |pulls| && forall i :: 0 <= i < |pulls| ==> ParsePull(pulls[i], turn) == Ok(r.value[i])
  {
    if pulls == [] then Ok([])
    else
      var init :- ParsePulls(pulls[..|pulls| - 1], turn);
      var p :- ParsePull(pulls[|pulls| - 1], turn);
      assert forall i :: 0 <= i < |pulls| - 1 ==> pulls[..|pulls| - 1][i] == pulls[i];
      Ok(init + [p])
  }

  lemma {:induction false} ParsePullsSticks(pulls: seq<string>, turn: string, i: nat)
    requires i <= |pulls| && ParsePulls(pulls[..i], turn).Err?
    ensures ParsePulls(pulls, turn) == ParsePulls(pulls[..i], turn)
    decreases |pulls|
  {
    if i < |pulls| {
      var init := pulls[..|pulls| - 1];
      assert init[..i] == pulls[..i];
      ParsePullsSticks(init, turn, i);
    } else {
      assert pulls[..i] == pulls;
    }
  }

  /** The parsed pulls recorded in order, each overwriting the number of its colour. */
  function Tally(ps: seq<(nat, Colour)>): Seen {
    if ps == [] then Seen(None, None, None)
    else
      var p := ps[|ps| - 1];
      Record(Tally(ps[..|ps| - 1]), p.0, p.1)
  }

  function ColourValue(s: Seen, c: Colour): Option<nat> {
    match c
    case Red => s.r
    case Green => s.g
    case Blue => s.b
  }

  /** `v` is the number of the last pull of colour `c`, or `None` when `c` is never pulled. */
  predicate LastPull(ps: seq<(nat, Colour)>, c: Colour, v: Option<nat>) {
    match v
    case None => forall i :: 0 <= i < |ps| ==> ps[i].1 != c
    case Some(n) =>
      exists i :: 0 <= i < |ps| && ps[i] == (n, c) && forall j :: i < j < |ps| ==> ps[j].1 != c
  }

  /** A colour never pulled counts as missing, and a colour pulled twice keeps its last number. */
  lemma {:induction false} TallyLastWins(ps: seq<(nat, Colour)>, c: Colour)
    ensures LastPull(ps, c, ColourValue(Tally(ps), c))
  {
    if ps != [] {
      var init := ps[..|ps| - 1];
      TallyLastWins(init, c);
      assert forall i :: 0 <= i < |init| ==> init[i] == ps[i];
      var p := ps[|ps| - 1];
      var v := ColourValue(Tally(ps), c);
      if p.1 != c {
        assert v == ColourValue(Tally(init), c);
        match v
        case None =>
          assert forall i :: 0 <= i < |ps| ==> ps[i].1 != c;
        case Some(n) =>
          var i :| 0 <= i < |init| && init[i] == (n, c) && forall j :: i < j < |init| ==> init[j].1 != c;
          assert ps[i] == (n, c) && forall j :: i < j < |ps| ==> ps[j].1 != c;
      } else {
        assert v == Some(p.0);
        assert ps[|ps| - 1] == (p.0, c);
      }
    }
  }

  /** The pulls read in order; the first bad pull is the error. */
  function ReadPulls(pulls: seq<string>, turn: string): (r: Result<Seen>)
    ensures r.Ok? <==> ParsePulls(pulls, turn).Ok?
  {
    var ps :- ParsePulls(pulls, turn);
    Ok(Tally(ps))
  }

  /** What a reveal shows of each colour is the number of its last pull, or nothing. */
  lemma ReadPullsLastWins(pulls: seq<string>, turn: string, c: Colour)
    requires ReadPulls(pulls, turn).Ok?
    ensures LastPull(ParsePulls(pulls, turn).value, c, ColourValue(ReadPulls(pulls, turn).value, c))
  {
    TallyLastWins(ParsePulls(pulls, turn).value, c);
  }

  function OrZero(v: Option<nat>): nat {
    if v.Some? then v.value else 0
  }

  /** `Turn::parse`: a reveal "N colour, N colour, ..."; a colour not mentioned is 0. */
  function ParseTurn(input: string): (r: Result<Turn>)
    ensures r.Ok? <==> ReadPulls(Split(input, ", "), input).Ok?
    ensures r.Ok? ==> var s := ReadPulls(Split(input, ", "), input).value;
      r.value == Turn(OrZero(s.r), OrZero(s.g), OrZero(s.b))
  {
    var s :- ReadPulls(Split(input, ", "), input);
    Ok(Turn(OrZero(s.r), OrZero(s.g), OrZero(s.b)))
  }

  /** The loop of `Turn::parse`, which assigns the `Option` locals of each colour in turn. */
  method ParseTurnLoop(input: string) returns (res: Result<Turn>)
    ensures res == ParseTurn(input)
  {
    var pulls := Split(input, ", ");
    var r: Option<nat> := None;
    var g: Option<nat> := None;
    var b: Option<nat> := None;
    for i := 0 to |pulls|
      invariant ParsePulls(pulls[..i], input).Ok?
      invariant Tally(ParsePulls(pulls[..i], input).value) == Seen(r, g, b)
    {
      assert pulls[..i + 1][..i] == pulls[..i];
      var pull := ParsePull(pulls[i], input);
      if pull.Err? {
        ParsePullsSticks(pulls, input, i + 1);
        return Err(pull.msg);
      }
      var (n, c) := pull.value;
      match c
      case Red => r := Some(n);
      case Green => g := Some(n);
      case Blue => b := Some(n);
    }
    assert pulls[..|pulls|] == pulls;
    return Ok(Turn(OrZero(r), OrZero(g), OrZero(b)));
  }

  /** The id of a game header "Game <id>"; `line` is the whole line, for the error message. */
  function ParseGameId(head: string, line: string): (r: Result<nat>)
    ensures r.Ok? <==> StartsWith(head, "Game ") && ParseUnsigned(head[5..], U128_BOUND).Some?
    ensures r.Ok? ==> ParseUnsigned(head[5..], U128_BOUND) == Some(r.value)
    ensures !StartsWith(head, "Game ") ==> r == Err("malformed line: " + line)
    ensures StartsWith(head, "Game ") && ParseUnsigned(head[5..], U128_BOUND).None? ==>
      IntError(head[5..], false, U128_BOUND).Some? && r == Err(IntErrorMessage(head[5..], false, U128_BOUND))
  {
    match StripPrefix(head, "Game ")
    case None => Err("malformed line: " + line)
    case Some(id) =>
      assert head[5..] == id;
      match ParseUnsigned(id, U128_BOUND)
      case None => ParseUnsignedError(id, U128_BOUND); Err(IntErrorMessage(id, false, U128_BOUND))
      case Some(n) => Ok(n)
  }

  /** An empty id, as in "Game : 1 red", fails with the empty-string error of `parse::<u128>`. */
  lemma EmptyGameId(line: string)
    ensures ParseGameId("Game ", line) == Err("cannot parse integer from empty string")
  {
    assert "Game "[5..] == [];
  }

  /** A pull with no count, as in " red", fails with the empty-string error of `parse::<u128>`. */
  lemma EmptyPullCount(colour: string, turn: string)
    ensures ParsePull(" " + colour, turn) == Err("cannot parse integer from empty string")
  {
    SplitOnceAt("", " ", colour);
    assert "" + " " + colour == " " + colour;
  }

  /** `Game::parse`: "Game <id>: <reveal>; <reveal>; ...". */
  function ParseGame(line: string): (r: Result<Game>)
    ensures r.Ok? ==> SplitOnce(line, ": ").Some?
    ensures r.Ok? ==> var head, body := SplitOnce(line, ": ").value.0, SplitOnce(line, ": ").value.1;
      ParseGameId(head, line) == Ok(r.value.id) && CollectAll(Split(body, "; "), ParseTurn) == Ok(r.value.turns)
  {
    match SplitOnce(line, ": ")
    case None => Err("malformed line: " + line)
    case Some((head, body)) =>
      var n :- ParseGameId(head, line);
      var ts :- CollectAll(Split(body, "; "), ParseTurn);
      Ok(Game(n, ts))
  }

  /** A line with a game header parses to the game of that id with the reveals of the body. */
  lemma ParseGameHeader(id: nat, body: string)
    requires id < U128_BOUND
    ensures ParseGame("Game " + Decimal(id) + ": " + body) ==
      if CollectAll(Split(body, "; "), ParseTurn).Ok? then Ok(Game(id, CollectAll(Split(body, "; "), ParseTurn).value))
      else Err(CollectAll(Split(body, "; "), ParseTurn).msg)
  {
    var head := "Game " + Decimal(id);
    NotInDigits(Decimal(id), ':');
    assert ':' !in head;
    SplitOnceAt(head, ": ", body);
    assert head == "Game " + Decimal(id);
    assert StartsWith(head, "Game ") && head[5..] == Decimal(id);
    DecimalRoundTrip(id, U128_BOUND);
  }

  // ---------------------------------------------------------------------------------------------
  // Printing a game and parsing it back

  function ColourName(c: Colour): string {
    match c
    case Red => "red"
    case Green => "green"
    case Blue => "blue"
  }

  function PullText(n: nat, c: Colour): string {
    Decimal(n) + " " + ColourName(c)
  }

  /** A reveal written with all three colours, red first. */
  function TurnText(t: Turn): string {
    Join([PullText(t.red, Red), PullText(t.green, Green), PullText(t.blue, Blue)], ", ")
  }

  function TurnTexts(ts: seq<Turn>): (r: seq<string>)
    ensures |r| == |ts| && forall i :: 0 <= i < |ts| ==> r[i] == TurnText(ts[i])
  {
    if ts == [] then [] else [TurnText(ts[0])] + TurnTexts(ts[1..])
  }

  function GameText(g: Game): string {
    "Game " + Decimal(g.id) + ": " + Join(TurnTexts(g.turns), "; ")
  }

  predicate TurnFits(t: Turn) {
    t.red < U128_BOUND && t.green < U128_BOUND && t.blue < U128_BOUND
  }

  lemma PullRoundTrip(n: nat, c: Colour, turn: string)
    requires n < U128_BOUND
    ensures ParsePull(PullText(n, c), turn) == Ok((n, c))
  {
    NotInDigits(Decimal(n), ' ');
    SplitOnceAt(Decimal(n), " ", ColourName(c));
    DecimalRoundTrip(n, U128_BOUND);
  }

  lemma PullHasNoSeparator(n: nat, c: Colour, sep: char)
    requires sep == ',' || sep == ';' || sep == '\n'
    ensures sep !in PullText(n, c)
  {
    NotInDigits(Decimal(n), sep);
  }

  /** A printed reveal contains neither the reveal separator nor a line break. */
  lemma TurnTextExcludes(t: Turn, x: char)
    requires x == ';' || x == '\n'
    ensures x !in TurnText(t)
  {
    var ps := [PullText(t.red, Red), PullText(t.green, Green), PullText(t.blue, Blue)];
    PullHasNoSeparator(t.red, Red, x);
    PullHasNoSeparator(t.green, Green, x);
    PullHasNoSeparator(t.blue, Blue, x);
    JoinExcludes(ps, ", ", x);
  }

  lemma TurnPieces(t: Turn)
    ensures Split(TurnText(t), ", ") == [PullText(t.red, Red), PullText(t.green, Green), PullText(t.blue, Blue)]
  {
    var ps := [PullText(t.red, Red), PullText(t.green, Green), PullText(t.blue, Blue)];
    PullHasNoSeparator(t.red, Red, ',');
    PullHasNoSeparator(t.green, Green, ',');
    PullHasNoSeparator(t.blue, Blue, ',');
    JoinSplit(ps, ", ");
  }

  lemma ParseThreePulls(ps: seq<string>, turn: string, vs: seq<(nat, Colour)>)
    requires |ps| == 3 && |vs| == 3
    requires forall k :: 0 <= k < 3 ==> ParsePull(ps[k], turn) == Ok(vs[k])
    ensures ParsePulls(ps, turn) == Ok(vs)
  {
    var r := ParsePulls(ps, turn);
    assert r.Ok?;
    assert |r.value| == 3 && forall k :: 0 <= k < 3 ==> r.value[k] == vs[k];
    assert r.value == vs;
  }

  lemma TallyThree(r: nat, g: nat, b: nat)
    ensures Tally([(r, Red), (g, Green), (b, Blue)]) == Seen(Some(r), Some(g), Some(b))
  {
    var v1, v2, v3 := [(r, Red)], [(r, Red), (g, Green)], [(r, Red), (g, Green), (b, Blue)];
    assert v1[..|v1| - 1] == [];
    assert Tally(v1) == Seen(Some(r), None, None);
    assert v2[..|v2| - 1] == v1;
    assert Tally(v2) == Seen(Some(r), Some(g), None);
    assert v3[..|v3| - 1] == v2;
  }

  /** A reveal printed with its three colours parses back to itself. */
  lemma TurnRoundTrip(t: Turn)
    requires TurnFits(t)
    ensures ParseTurn(TurnText(t)) == Ok(t)
  {
    var input := TurnText(t);
    var ps := [PullText(t.red, Red), PullText(t.green, Green), PullText(t.blue, Blue)];
    TurnPieces(t);
    PullRoundTrip(t.red, Red, input);
    PullRoundTrip(t.green, Green, input);
    PullRoundTrip(t.blue, Blue, input);
    var vs := [(t.red, Red), (t.green, Green), (t.blue, Blue)];
    ParseThreePulls(ps, input, vs);
    TallyThree(t.red, t.green, t.blue);
  }

  lemma TurnTextsHaveNoSemicolon(ts: seq<Turn>)
    ensures forall i :: 0 <= i < |ts| ==> ';' !in TurnTexts(ts)[i]
  {
    forall i | 0 <= i < |ts|
      ensures ';' !in TurnTexts(ts)[i]
    {
      TurnTextExcludes(ts[i], ';');
    }
  }

  lemma {:induction false} TurnTextsRoundTrip(ts: seq<Turn>)
    requires forall i :: 0 <= i < |ts| ==> TurnFits(ts[i])
    ensures CollectAll(TurnTexts(ts), ParseTurn) == Ok(ts)
  {
    var texts := TurnTexts(ts);
    forall i | 0 <= i < |ts|
      ensures ParseTurn(texts[i]) == Ok(ts[i])
    {
      TurnRoundTrip(ts[i]);
    }
    assert CollectAll(texts, ParseTurn).value == ts;
  }

  /** A game with at least one reveal, printed as a line of input, parses back to itself. */
  lemma GameRoundTrip(g: Game)
    requires g.id < U128_BOUND && |g.turns| >= 1
    requires forall i :: 0 <= i < |g.turns| ==> TurnFits(g.turns[i])
    ensures ParseGame(GameText(g)) == Ok(g)
  {
    var body := Join(TurnTexts(g.turns), "; ");
    ParseGameHeader(g.id, body);
    TurnTextsHaveNoSemicolon(g.turns);
    JoinSplit(TurnTexts(g.turns), "; ");
    TurnTextsRoundTrip(g.turns);
  }

  // ---------------------------------------------------------------------------------------------
  // Possible games and minimal bags

  /** `Turn::is_possible`: a bag of 12 red, 13 green and 14 blue cubes can show the reveal. */
  predicate TurnPossible(t: Turn) {
    t.red <= 12 && t.green <= 13 && t.blue <= 14
  }

  /** `Game::is_possible`: every reveal of the game is possible. */
  predicate GamePossible(g: Game) {
    forall i :: 0 <= i < |g.turns| ==> TurnPossible(g.turns[i])
  }

  /** `Turn::power`. */
  function Power(t: Turn): nat {
    t.red * t.green * t.blue
  }

  function Max(a: nat, b: nat): nat { if a >= b then a else b }

  /** The fewest cubes of each colour that make every reveal possible. */
  function MaxCubes(turns: seq<Turn>): (m: Turn)
    ensures forall i :: 0 <= i < |turns| ==> turns[i].red <= m.red && turns[i].green <= m.green && turns[i].blue <= m.blue
    ensures m.red == 0 || exists i :: 0 <= i < |turns| && turns[i].red == m.red
    ensures m.green == 0 || exists i :: 0 <= i < |turns| && turns[i].green == m.green
    ensures m.blue == 0 || exists i :: 0 <= i < |turns| && turns[i].blue == m.blue
  {
    if turns == [] then Turn(0, 0, 0)
    else
      var m := MaxCubes(turns[..|turns| - 1]);
      var t := turns[|turns| - 1];
      assert forall i :: 0 <= i < |turns| - 1 ==> turns[..|turns| - 1][i] == turns[i];
      Turn(Max(m.red, t.red), Max(m.green, t.green), Max(m.blue, t.blue))
  }

  /** `Game::min_cubes`: the running component-wise maximum over the reveals. */
  method MinCubes(g: Game) returns (m: Turn)
    ensures m == MaxCubes(g.turns)
  {
    m := Turn(0, 0, 0);
    for i := 0 to |g.turns|
      invariant m == MaxCubes(g.turns[..i])
    {
      assert g.turns[..i + 1][..i] == g.turns[..i];
      var t := g.turns[i];
      m := m.(red := Max(m.red, t.red));
      m := m.(green := Max(m.green, t.green));
      m := m.(blue := Max(m.blue, t.blue));
    }
    assert g.turns[..|g.turns|] == g.turns;
  }

  /** A game is possible exactly when its minimal bag fits in the bag of 12, 13 and 14. */
  lemma PossibleIffMinimalFits(g: Game)
    ensures GamePossible(g) <==> TurnPossible(MaxCubes(g.turns))
  {
    var m := MaxCubes(g.turns);
    if GamePossible(g) {
      if m.red != 0 {
        var i :| 0 <= i < |g.turns| && g.turns[i].red == m.red;
        assert TurnPossible(g.turns[i]);
      }
      if m.green != 0 {
        var i :| 0 <= i < |g.turns| && g.turns[i].green == m.green;
        assert TurnPossible(g.turns[i]);
      }
      if m.blue != 0 {
        var i :| 0 <= i < |g.turns| && g.turns[i].blue == m.blue;
        assert TurnPossible(g.turns[i]);
      }
    }
  }

  // ---------------------------------------------------------------------------------------------
  // The two parts

  /** What a line adds in part one: its id when the game is possible. */
  function PossibleId(line: string): Result<nat> {
    var g :- ParseGame(line);
    Ok(if GamePossible(g) then g.id else 0)
  }

  /** What a line adds in part two: the power of its minimal bag. */
  function MinimalPower(line: string): Result<nat> {
    var g :- ParseGame(line);
    Ok(Power(MaxCubes(g.turns)))
  }

  /** `Game::is_possible`: the first impossible reveal ends the scan. */
  method IsPossible(g: Game) returns (b: bool)
    ensures b <==> GamePossible(g)
  {
    for i := 0 to |g.turns|
      invariant forall k :: 0 <= k < i ==> TurnPossible(g.turns[k])
    {
      if !TurnPossible(g.turns[i]) {
        return false;
      }
    }
    return true;
  }

  /** `day02_1`: the sum of the ids of the possible games. */
  method Part1(input: string) returns (r: Result<nat>)
    ensures r == SumLines(Lines(input), PossibleId)
  {
    r := Accumulate(input, PossibleId);
  }

  /** `day02_2`: the sum of the powers of the minimal bags. */
  method Part2(input: string) returns (r: Result<nat>)
    ensures r == SumLines(Lines(input), MinimalPower)
  {
    r := Accumulate(input, MinimalPower);
  }

  // ---------------------------------------------------------------------------------------------
  // Fixtures, on the games the sample lines describe

  const GAME1 := Game(1, [Turn(4, 0, 3), Turn(1, 2, 6), Turn(0, 2, 0)])
  const GAME2 := Game(2, [Turn(0, 2, 1), Turn(1, 3, 4), Turn(0, 1, 1)])
  const GAME3 := Game(3, [Turn(20, 8, 6), Turn(4, 13, 5), Turn(1, 5, 0)])
  const GAME4 := Game(4, [Turn(3, 1, 6), Turn(6, 3, 0), Turn(14, 3, 15)])
  const GAME5 := Game(5, [Turn(6, 3, 1), Turn(1, 2, 2)])

  function SampleGames(): seq<Game> {
    [GAME1, GAME2, GAME3, GAME4, GAME5]
  }

  function GameTexts(gs: seq<Game>): (r: seq<string>)
    ensures |r| == |gs| && forall i :: 0 <= i < |gs| ==> r[i] == GameText(gs[i])
  {
    if gs == [] then [] else [GameText(gs[0])] + GameTexts(gs[1..])
  }

  /** A printed game is a single non-empty line. */
  lemma GameTextIsLine(g: Game)
    ensures GameText(g) != [] && '\n' !in GameText(g)
  {
    NotInDigits(Decimal(g.id), '\n');
    var texts := TurnTexts(g.turns);
    forall i | 0 <= i < |texts|
      ensures '\n' !in texts[i]
    {
      TurnTextExcludes(g.turns[i], '\n');
    }
    JoinExcludes(texts, "; ", '\n');
  }

  lemma MaxCubesThree(a: Turn, b: Turn, c: Turn)
    ensures MaxCubes([a, b, c]) ==
      Turn(Max(Max(a.red, b.red), c.red), Max(Max(a.green, b.green), c.green), Max(Max(a.blue, b.blue), c.blue))
  {
    MaxCubesTwo(a, b);
    assert [a, b, c][..2] == [a, b];
  }

  lemma MaxCubesTwo(a: Turn, b: Turn)
    ensures MaxCubes([a, b]) == Turn(Max(a.red, b.red), Max(a.green, b.green), Max(a.blue, b.blue))
  {
    assert [a, b][..1] == [a] && [a][..0] == [];
  }

  /** Games printed one per line are the lines of the text, and each parses back to its game. */
  lemma GamesRoundTrip(gs: seq<Game>)
    requires forall i :: 0 <= i < |gs| ==> gs[i].id < U128_BOUND && |gs[i].turns| >= 1
    requires forall i, k :: 0 <= i < |gs| && 0 <= k < |gs[i].turns| ==> TurnFits(gs[i].turns[k])
    ensures var texts := GameTexts(gs);
      Lines(Join(texts, "\n")) == texts && forall i :: 0 <= i < |texts| ==> ParseGame(texts[i]) == Ok(gs[i])
  {
    var texts := GameTexts(gs);
    forall i | 0 <= i < |gs|
      ensures texts[i] != [] && '\n' !in texts[i] && ParseGame(texts[i]) == Ok(gs[i])
    {
      GameTextIsLine(gs[i]);
      GameRoundTrip(gs[i]);
    }
    LinesOfJoin(texts);
  }

  function PossibleIds(): seq<nat> { [1, 2, 0, 0, 5] }

  function Powers(): seq<nat> { [48, 12, 1560, 630, 36] }

  /** What a game adds to each part: its id when it is possible, and the power of its minimal bag. */
  predicate GameValues(g: Game, id: nat, power: nat) {
    id == IdIfPossible(g) && power == Power(MaxCubes(g.turns))
  }

  function IdIfPossible(g: Game): nat {
    if GamePossible(g) then g.id else 0
  }

  /** Game 1 is possible; its minimal bag is 4 red, 2 green and 6 blue, of power 48. */
  lemma FixtureGame1()
    ensures GamePossible(GAME1) && MaxCubes(GAME1.turns) == Turn(4, 2, 6)
    ensures GameValues(GAME1, 1, 48)
  {
    MaxCubesThree(Turn(4, 0, 3), Turn(1, 2, 6), Turn(0, 2, 0));
  }

  /** Game 2 is possible; its minimal bag is 1 red, 3 green and 4 blue, of power 12. */
  lemma FixtureGame2()
    ensures GamePossible(GAME2) && MaxCubes(GAME2.turns) == Turn(1, 3, 4)
    ensures GameValues(GAME2, 2, 12)
  {
    MaxCubesThree(Turn(0, 2, 1), Turn(1, 3, 4), Turn(0, 1, 1));
  }

  /** Game 3 is impossible (20 red); its minimal bag is 20 red, 13 green and 6 blue, of power 1560. */
  lemma FixtureGame3()
    ensures !GamePossible(GAME3) && MaxCubes(GAME3.turns) == Turn(20, 13, 6)
    ensures GameValues(GAME3, 0, 1560)
  {
    assert !TurnPossible(GAME3.turns[0]);
    MaxCubesThree(Turn(20, 8, 6), Turn(4, 13, 5), Turn(1, 5, 0));
  }

  /** Game 4 is impossible (15 blue); its minimal bag is 14 red, 3 green and 15 blue, of power 630. */
  lemma FixtureGame4()
    ensures !GamePossible(GAME4) && MaxCubes(GAME4.turns) == Turn(14, 3, 15)
    ensures GameValues(GAME4, 0, 630)
  {
    assert !TurnPossible(GAME4.turns[2]);
    MaxCubesThree(Turn(3, 1, 6), Turn(6, 3, 0), Turn(14, 3, 15));
  }

  /** Game 5 is possible; its minimal bag is 6 red, 3 green and 2 blue, of power 36. */
  lemma FixtureGame5()
    ensures GamePossible(GAME5) && MaxCubes(GAME5.turns) == Turn(6, 3, 2)
    ensures GameValues(GAME5, 5, 36)
  {
    MaxCubesTwo(Turn(6, 3, 1), Turn(1, 2, 2));
  }

  /** Games printed one per line add up to the totals of their per-game values. */
  lemma GamesSum(gs: seq<Game>, ids: seq<nat>, powers: seq<nat>)
    requires forall i :: 0 <= i < |gs| ==> gs[i].id < U128_BOUND && |gs[i].turns| >= 1
    requires forall i, k :: 0 <= i < |gs| && 0 <= k < |gs[i].turns| ==> TurnFits(gs[i].turns[k])
    requires |ids| == |gs| && |powers| == |gs|
    requires forall i :: 0 <= i < |gs| ==> GameValues(gs[i], ids[i], powers[i])
    ensures SumLines(Lines(Join(GameTexts(gs), "\n")), PossibleId) == Ok(Total(ids))
    ensures SumLines(Lines(Join(GameTexts(gs), "\n")), MinimalPower) == Ok(Total(powers))
  {
    var texts := GameTexts(gs);
    GamesRoundTrip(gs);
    forall i | 0 <= i < |texts|
      ensures PossibleId(texts[i]) == Ok(ids[i]) && MinimalPower(texts[i]) == Ok(powers[i])
    {
      assert ParseGame(texts[i]) == Ok(gs[i]) && GameValues(gs[i], ids[i], powers[i]);
    }
    SumLinesValues(texts, PossibleId, ids);
    SumLinesValues(texts, MinimalPower, powers);
  }

  lemma SampleFits()
    ensures var gs := SampleGames();
      (forall i :: 0 <= i < |gs| ==> gs[i].id < U128_BOUND && |gs[i].turns| >= 1) &&
      forall i, k :: 0 <= i < |gs| && 0 <= k < |gs[i].turns| ==> TurnFits(gs[i].turns[k])
  {
  }

  lemma SampleIdsAndPowers()
    ensures forall i :: 0 <= i < 5 ==> GameValues(SampleGames()[i], PossibleIds()[i], Powers()[i])
  {
    FixtureGame1();
    FixtureGame2();
    FixtureGame3();
    FixtureGame4();
    FixtureGame5();
    FiveGameValues(GAME1, 1, 48, GAME2, 2, 12, GAME3, 0, 1560, GAME4, 0, 630, GAME5, 5, 36);
  }

  lemma FiveGameValues(g0: Game, i0: nat, p0: nat, g1: Game, i1: nat, p1: nat, g2: Game, i2: nat, p2: nat,
                       g3: Game, i3: nat, p3: nat, g4: Game, i4: nat, p4: nat)
    requires GameValues(g0, i0, p0) && GameValues(g1, i1, p1) && GameValues(g2, i2, p2)
    requires GameValues(g3, i3, p3) && GameValues(g4, i4, p4)
    ensures var gs, ids, powers := [g0, g1, g2, g3, g4], [i0, i1, i2, i3, i4], [p0, p1, p2, p3, p4];
      forall i :: 0 <= i < 5 ==> GameValues(gs[i], ids[i], powers[i])
  {
    var ids, powers := [i0, i1, i2, i3, i4], [p0, p1, p2, p3, p4];
    var gs := [g0, g1, g2, g3, g4];
    forall i | 0 <= i < 5
      ensures GameValues(gs[i], ids[i], powers[i])
    {
      if i == 0 {
      } else if i == 1 {
      } else if i == 2 {
      } else if i == 3 {
      } else {
      }
    }
  }

  lemma SampleTotals()
    ensures Total(PossibleIds()) == 8 && Total(Powers()) == 2286
  {
    var ids, powers := PossibleIds(), Powers();
    assert ids[..4] == [1, 2, 0, 0] && [1, 2, 0, 0][..3] == [1, 2, 0] && [1, 2, 0][..2] == [1, 2];
    assert [1, 2][..1] == [1] && [1][..0] == [];
    assert powers[..4] == [48, 12, 1560, 630] && [48, 12, 1560, 630][..3] == [48, 12, 1560];
    assert [48, 12, 1560][..2] == [48, 12] && [48, 12][..1] == [48] && [48][..0] == [];
  }

  /** The sample games, one per line: ids 1, 2 and 5 are possible, their sum is 8, and the powers
      of the minimal bags add up to 2286. */
  lemma SampleFixture()
    ensures SumLines(Lines(Join(GameTexts(SampleGames()), "\n")), PossibleId) == Ok(8)
    ensures SumLines(Lines(Join(GameTexts(SampleGames()), "\n")), MinimalPower) == Ok(2286)
  {
    SampleFits();
    SampleIdsAndPowers();
    SampleTotals();
    GamesSum(SampleGames(), PossibleIds(), Powers());
  }
}
