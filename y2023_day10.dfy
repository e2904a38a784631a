/** 2023 day 10: a grid of pipe tiles with one starting tile S. Part 1 follows the pipe loop that
    leaves S and comes back to it, and answers half the number of its tiles: the distance to the
    farthest point of the loop. Rows grow downwards and are stored with their `y` negated, so North
    is `y + 1`. */
module Y2023Day10 {
  import opened Outcomes
  import opened Text
  import opened Positions
  import opened Numbers

  datatype Direction = North | South | East | West

  /** `Direction::offset`: one step in the direction, North being `y + 1`. */
  function Offset(d: Direction): (o: Pos)
    ensures Abs(o.x) + Abs(o.y) == 1
    ensures d.North? <==> o.y == 1
    ensures d.South? <==> o.y == -1
    ensures d.East? <==> o.x == 1
    ensures d.West? <==> o.x == -1
  {
    match d
    case North => Pos(0, 1)
    case South => Pos(0, -1)
    case East => Pos(1, 0)
    case West => Pos(-1, 0)
  }

  /** `Direction::inverse`: the opposite direction, whose step undoes the step of `d`. */
  function Inverse(d: Direction): (r: Direction)
    ensures r != d
    ensures Offset(r) == Pos(-Offset(d).x, -Offset(d).y)
  {
    match d
    case North => South
    case South => North
    case East => West
    case West => East
  }

  lemma InverseInvolution(d: Direction)
    ensures Inverse(Inverse(d)) == d
  {
    var o := Offset(d);
    assert Offset(Inverse(Inverse(d))) == o;
  }

  /** `Direction::all`: the order in which the loop is looked for around S. */
  const ALL: seq<Direction> := [North, South, East, West]

  lemma AllDirections(d: Direction)
    ensures d in ALL && Occurrences(ALL, d) == 1
  {
  }

  /** `pos + d.offset()`. */
  function Step(p: Pos, d: Direction): Pos {
    Pos(p.x + Offset(d).x, p.y + Offset(d).y)
  }

  lemma StepBack(p: Pos, d: Direction)
    ensures Step(Step(p, d), Inverse(d)) == p
  {
  }

  // ---------------------------------------------------------------------------------------------
  // Tiles

  /** `Tile`: a pipe joining two sides, ground, or the starting position. */
  datatype Tile = Pipe(a: Direction, b: Direction) | Ground | Start

  /** The panic of `Tile::parse` on any other character. */
  function UnrecognizedTile(c: char): string {
    "panic: unrecognized tile " + [c]
  }

  /** `Tile::parse`. */
  function ParseTile(c: char): (r: Result<Tile>)
    ensures r.Ok? <==> c in "|-LJ7F.S"
    ensures r.Err? ==> r.msg == UnrecognizedTile(c)
    ensures r == Ok(Ground) <==> c == '.'
    ensures r == Ok(Start) <==> c == 'S'
    ensures r.Ok? && r.value.Pipe? ==> r.value.a != r.value.b
  {
    match c
    case '|' => Ok(Pipe(North, South))
    case '-' => Ok(Pipe(East, West))
    case 'L' => Ok(Pipe(North, East))
    case 'J' => Ok(Pipe(North, West))
    case '7' => Ok(Pipe(South, West))
    case 'F' => Ok(Pipe(South, East))
    case '.' => Ok(Ground)
    case 'S' => Ok(Start)
    case _ => Err(UnrecognizedTile(c))
  }

  /** `Tile::travel`: entering a tile from side `from`, the side it leaves by. */
  function Travel(t: Tile, from: Direction): (r: Option<Direction>)
    ensures r.Some? <==> t.Pipe? && (from == t.a || from == t.b)
  {
    match t
    case Pipe(a, b) => if from == a then Some(b) else if from == b then Some(a) else None
    case Ground => None
    case Start => None
  }

  /** Travelling joins exactly the two sides of a pipe, in either order. */
  lemma TravelJoins(t: Tile, from: Direction, to: Direction)
    ensures Travel(t, from) == Some(to) <==> t == Pipe(from, to) || t == Pipe(to, from)
  {
  }

  /** A pipe can be travelled back the way it was entered. */
  lemma TravelBack(t: Tile, from: Direction, to: Direction)
    requires Travel(t, from) == Some(to)
    ensures Travel(t, to) == Some(from)
  {
    TravelJoins(t, from, to);
    TravelJoins(t, to, from);
  }

  // ---------------------------------------------------------------------------------------------
  // The map

  /** `Map`: rows of tiles, the starting position and the size. */
  datatype Map = Map(tiles: seq<seq<Tile>>, start: Pos, size: Pos)

  /** `Map::get`: row `-y`, column `x`. A negative index cast to `usize` is larger than any row, so
      everything off the grid is `None`. */
  function Get(m: Map, p: Pos): (r: Option<Tile>)
    ensures r.Some? <==> 0 <= -p.y < |m.tiles| && 0 <= p.x < |m.tiles[-p.y]|
    ensures r.Some? ==> r.value == m.tiles[-p.y][p.x]
  {
    if 0 <= -p.y < |m.tiles| && 0 <= p.x < |m.tiles[-p.y]| then Some(m.tiles[-p.y][p.x]) else None
  }

  function ParseRow(line: string): Result<seq<Tile>> {
    CollectAll(line, ParseTile)
  }

  /** The column of the last S in a row. */
  function LastStartIn(row: seq<Tile>): (r: Option<nat>)
    ensures r.None? <==> Start !in row
    ensures r.Some? ==> r.value < |row| && row[r.value] == Start && Start !in row[r.value + 1..]
  {
    if row == [] then None
    else if row[|row| - 1] == Start then Some(|row| - 1)
    else
      var r := LastStartIn(row[..|row| - 1]);
      assert r.Some? ==> row[r.value + 1..] == row[..|row| - 1][r.value + 1..] + [row[|row| - 1]];
      r
  }

  /** The row and column of the last S in reading order. */
  function LastStart(tiles: seq<seq<Tile>>): Option<(nat, nat)> {
    if tiles == [] then None
    else match LastStartIn(tiles[|tiles| - 1])
      case Some(x) => Some((|tiles| - 1, x))
      case None => LastStart(tiles[..|tiles| - 1])
  }

  /** A cell as `parse` stores it: column `x`, row `y` negated. */
  function Stored(cell: Option<(nat, nat)>): Option<Pos> {
    if cell.None? then None else Some(Pos(cell.value.1, -(cell.value.0 as int)))
  }

  /** The S in row `y`, column `x`, is not followed by another S in reading order. */
  predicate IsLastStart(tiles: seq<seq<Tile>>, y: int, x: int) {
    0 <= y < |tiles| && 0 <= x < |tiles[y]| && tiles[y][x] == Start
    && Start !in tiles[y][x + 1..]
    && forall k :: y < k < |tiles| ==> Start !in tiles[k]
  }

  /** `parse` keeps the last S it meets; `unwrap` panics when there is none. */
  lemma {:induction false} LastStartSpec(tiles: seq<seq<Tile>>)
    ensures LastStart(tiles).None? <==> forall k :: 0 <= k < |tiles| ==> Start !in tiles[k]
    ensures LastStart(tiles).Some? ==> IsLastStart(tiles, LastStart(tiles).value.0, LastStart(tiles).value.1)
  {
    if tiles != [] {
      var front := tiles[..|tiles| - 1];
      LastStartSpec(front);
      assert forall k :: 0 <= k < |front| ==> front[k] == tiles[k];
    }
  }

  lemma LastStartInSnoc(row: seq<Tile>, t: Tile)
    ensures LastStartIn(row + [t]) == if t == Start then Some(|row|) else LastStartIn(row)
  {
    assert (row + [t])[..|row|] == row;
  }

  /** One more row: its last S, or the last S before it, and its width, or the width before it. */
  lemma LastSnoc(tiles: seq<seq<Tile>>, row: seq<Tile>)
    ensures LastStart(tiles + [row]) == if LastStartIn(row).Some? then Some((|tiles|, LastStartIn(row).value)) else LastStart(tiles)
    ensures LastWidth(tiles + [row]) == if row == [] then LastWidth(tiles) else |row|
  {
    assert (tiles + [row])[..|tiles|] == tiles;
  }

  lemma StoredSnoc(tiles: seq<seq<Tile>>, row: seq<Tile>, y: int)
    requires y == |tiles|
    ensures Stored(LastStart(tiles + [row])) == if LastStartIn(row).Some? then Some(Pos(LastStartIn(row).value, -y)) else Stored(LastStart(tiles))
  {
    LastSnoc(tiles, row);
  }

  /** The length of the last non-empty row: `width` is set once per character. */
  function LastWidth(tiles: seq<seq<Tile>>): nat {
    if tiles == [] then 0
    else if tiles[|tiles| - 1] != [] then |tiles[|tiles| - 1]|
    else LastWidth(tiles[..|tiles| - 1])
  }

  /** The width is zero for rows that are all empty, and otherwise the length of a row followed only
      by empty rows. */
  lemma {:induction false} LastWidthSpec(tiles: seq<seq<Tile>>)
    ensures LastWidth(tiles) == 0 <==> forall k :: 0 <= k < |tiles| ==> tiles[k] == []
    ensures LastWidth(tiles) > 0 ==>
      exists k :: 0 <= k < |tiles| && |tiles[k]| == LastWidth(tiles) && forall j :: k < j < |tiles| ==> tiles[j] == []
  {
    if tiles != [] && tiles[|tiles| - 1] == [] {
      var front := tiles[..|tiles| - 1];
      LastWidthSpec(front);
      assert forall k :: 0 <= k < |front| ==> front[k] == tiles[k];
    }
  }

  /** The map `parse` builds, or the panic it hits: an unknown character first, then a missing S. */
  function MapOf(input: string): (r: Result<Map>) {
    var tiles :- CollectAll(Lines(input), ParseRow);
    MapOfTiles(tiles)
  }

  /** The map of parsed rows: `unwrap` panics when no S was seen. */
  function MapOfTiles(tiles: seq<seq<Tile>>): (r: Result<Map>) {
    match Stored(LastStart(tiles))
    case None => Err(UNWRAP_NONE)
    case Some(p) => Ok(Map(tiles, p, Pos(LastWidth(tiles), |tiles|)))
  }

  /** A parsed map has its start on an S tile with no S after it, and rows without an S panic. */
  lemma MapOfTilesSpec(tiles: seq<seq<Tile>>)
    ensures var r := MapOfTiles(tiles);
      (r.Ok? ==> r.value.tiles == tiles && r.value.size.y == |tiles|
                 && Get(r.value, r.value.start) == Some(Start)
                 && IsLastStart(tiles, -r.value.start.y, r.value.start.x))
      && (r.Err? <==> forall k :: 0 <= k < |tiles| ==> Start !in tiles[k])
  {
    LastStartSpec(tiles);
  }

  /** Each row of a parsed map is the tiles of its line. */
  lemma MapOfRows(input: string)
    requires MapOf(input).Ok?
    ensures |MapOf(input).value.tiles| == |Lines(input)|
    ensures forall k :: 0 <= k < |Lines(input)| ==> ParseRow(Lines(input)[k]) == Ok(MapOf(input).value.tiles[k])
  {
    var tiles := CollectAll(Lines(input), ParseRow).value;
    MapOfTilesSpec(tiles);
  }

  /** `Map::parse`: the rows of tiles, keeping the last S seen and the running width and height. */
  method ParseMap(input: string) returns (r: Result<Map>)
    ensures r == MapOf(input)
  {
    var lines := Lines(input);
    var tiles: seq<seq<Tile>> := [];
    var start: Option<Pos> := None;
    var width, height := 0, 0;
    var y := 0;
    while y < |lines|
      invariant y <= |lines| && height == y
      invariant ParsedRows(lines, y, tiles, start, width)
    {
      height := y + 1;
      var row, start', width' := ParseLine(lines[y], y, start, width);
      if row.Err? {
        CollectAllFailsAt(lines, y, ParseRow);
        return Err(row.msg);
      }
      ParsedRowsStep(lines, y, tiles, start, width, row.value, start', width');
      tiles, start, width := tiles + [row.value], start', width';
      y := y + 1;
    }
    ParsedAll(lines, tiles, start, width);
    if start.None? {
      return Err(UNWRAP_NONE);
    }
    return Ok(Map(tiles, start.value, Pos(width, height)));
  }

  /** The state of `parse` after the first `y` lines. */
  predicate ParsedRows(lines: seq<string>, y: nat, tiles: seq<seq<Tile>>, start: Option<Pos>, width: nat) {
    y <= |lines| && |tiles| == y
    && CollectAll(lines[..y], ParseRow) == Ok(tiles)
    && start == Stored(LastStart(tiles)) && width == LastWidth(tiles)
  }

  lemma ParsedRowsStep(lines: seq<string>, y: nat, tiles: seq<seq<Tile>>, start: Option<Pos>, width: nat,
                       row: seq<Tile>, start': Option<Pos>, width': nat)
    requires ParsedRows(lines, y, tiles, start, width) && y < |lines| && ParseRow(lines[y]) == Ok(row)
    requires start' == if LastStartIn(row).Some? then Some(Pos(LastStartIn(row).value, -(y as int))) else start
    requires width' == if row == [] then width else |row|
    ensures ParsedRows(lines, y + 1, tiles + [row], start', width')
  {
    CollectAllNext(lines, y, ParseRow);
    LastSnoc(tiles, row);
    StoredSnoc(tiles, row, y);
  }

  lemma ParsedAll(lines: seq<string>, tiles: seq<seq<Tile>>, start: Option<Pos>, width: nat)
    requires ParsedRows(lines, |lines|, tiles, start, width)
    ensures MapOfTiles(tiles) == (if start.None? then Err(UNWRAP_NONE) else Ok(Map(tiles, start.value, Pos(width, |tiles|))))
    ensures CollectAll(lines, ParseRow) == Ok(tiles)
  {
    assert lines[..|lines|] == lines;
  }

  /** The characters of line `y`: every tile, setting the width to one past each column and the start
      to each S met. */
  method ParseLine(line: string, y: nat, start0: Option<Pos>, width0: nat) returns (r: Result<seq<Tile>>, start: Option<Pos>, width: nat)
    ensures r == ParseRow(line)
    ensures r.Ok? ==> start == if LastStartIn(r.value).Some? then Some(Pos(LastStartIn(r.value).value, -(y as int))) else start0
    ensures r.Ok? ==> width == if r.value == [] then width0 else |r.value|
  {
    start, width := start0, width0;
    var row: seq<Tile> := [];
    var x := 0;
    while x < |line|
      invariant Scanned(line, y, start0, width0, x, row, start, width)
    {
      width := x + 1;
      var t := ParseTile(line[x]);
      if t.Err? {
        CollectAllFailsAt(line, x, ParseTile);
        return Err(t.msg), start, width;
      }
      if t.value == Start {
        start := Some(Pos(x, -(y as int)));
      }
      ScannedStep(line, y, start0, width0, x, row, t.value);
      row := row + [t.value];
      x := x + 1;
    }
    assert line[..x] == line;
    return Ok(row), start, width;
  }

  /** The state of the scan of line `y` after its first `x` characters. */
  predicate Scanned(line: string, y: nat, start0: Option<Pos>, width0: nat, x: nat, row: seq<Tile>, start: Option<Pos>, width: nat) {
    x <= |line| && |row| == x
    && CollectAll(line[..x], ParseTile) == Ok(row)
    && start == (if LastStartIn(row).Some? then Some(Pos(LastStartIn(row).value, -(y as int))) else start0)
    && width == (if x == 0 then width0 else x)
  }

  lemma ScannedStep(line: string, y: nat, start0: Option<Pos>, width0: nat, x: nat, row: seq<Tile>, t: Tile)
    requires x < |line| && |row| == x && CollectAll(line[..x], ParseTile) == Ok(row) && ParseTile(line[x]) == Ok(t)
    ensures CollectAll(line[..x + 1], ParseTile) == Ok(row + [t])
    ensures LastStartIn(row + [t]) == if t == Start then Some(x) else LastStartIn(row)
  {
    CollectAllNext(line, x, ParseTile);
    LastStartInSnoc(row, t);
  }

  // ---------------------------------------------------------------------------------------------
  // Following the loop

  /** The outcome of `_get_loop`: the visited tiles once an S is reached, a dead end (off the grid or
      into a side that is not open), or a walk longer than the step bound. */
  datatype Walk = Closed(tiles: set<Pos>) | DeadEnd | OutOfSteps

  /** `Map::_get_loop` with at most `fuel` tiles: enter `pos` from side `from`; an S closes the loop,
      a pipe sends the walk on through its other side. */
  function WalkLoop(m: Map, visited: set<Pos>, pos: Pos, from: Direction, fuel: nat): (r: Walk)
    ensures r.Closed? ==> pos in r.tiles && visited <= r.tiles
    decreases fuel
  {
    if fuel == 0 then OutOfSteps
    else match Get(m, pos)
      case None => DeadEnd
      case Some(tile) =>
        if tile == Start then Closed(visited + {pos})
        else match Travel(tile, from)
          case None => DeadEnd
          case Some(next) => WalkLoop(m, visited + {pos}, Step(pos, next), Inverse(next), fuel - 1)
  }

  /** A closed walk holds every tile visited before it and no more tiles than its fuel adds. */
  lemma {:induction false} WalkLoopSize(m: Map, visited: set<Pos>, pos: Pos, from: Direction, fuel: nat)
    requires WalkLoop(m, visited, pos, from, fuel).Closed?
    ensures var tiles := WalkLoop(m, visited, pos, from, fuel).tiles;
      visited + {pos} <= tiles && |tiles| <= |visited| + fuel
    decreases fuel
  {
    if Get(m, pos).value != Start {
      var next := Travel(Get(m, pos).value, from).value;
      WalkLoopSize(m, visited + {pos}, Step(pos, next), Inverse(next), fuel - 1);
    }
  }

  /** A pipe entered from a side it joins passes the walk on to the tile beyond its other side. */
  lemma WalkLoopStep(m: Map, visited: set<Pos>, pos: Pos, from: Direction, next: Direction, fuel: nat)
    requires fuel > 0 && Joins(m, pos, from, next)
    ensures WalkLoop(m, visited, pos, from, fuel) == WalkLoop(m, visited + {pos}, Step(pos, next), Inverse(next), fuel - 1)
  {
    TravelJoins(Get(m, pos).value, from, next);
  }

  /** An S closes the loop. */
  lemma WalkLoopClose(m: Map, visited: set<Pos>, pos: Pos, from: Direction, fuel: nat)
    requires fuel > 0 && Get(m, pos) == Some(Start)
    ensures WalkLoop(m, visited, pos, from, fuel) == Closed(visited + {pos})
  {
  }

  /** `q` is one step away from `p`. */
  predicate Neighbours(p: Pos, q: Pos) {
    Abs(p.x - q.x) + Abs(p.y - q.y) == 1
  }

  /** The direction of a neighbour. */
  function Toward(p: Pos, q: Pos): (d: Direction)
    requires Neighbours(p, q)
    ensures Step(p, d) == q
  {
    if q.y == p.y + 1 then North else if q.y == p.y - 1 then South else if q.x == p.x + 1 then East else West
  }

  lemma TowardStep(p: Pos, d: Direction)
    ensures Neighbours(p, Step(p, d)) && Toward(p, Step(p, d)) == d
  {
  }

  /** The side of path tile `i` that faces the tile before it; the first tile is entered from `from`. */
  function EntrySide(from: Direction, ps: seq<Pos>, i: nat): Direction
    requires i < |ps| && (i > 0 ==> Neighbours(ps[i], ps[i - 1]))
  {
    if i == 0 then from else Toward(ps[i], ps[i - 1])
  }

  /** The tile at `p` is a pipe joining sides `d` and `e`. */
  predicate Joins(m: Map, p: Pos, d: Direction, e: Direction) {
    Get(m, p) == Some(Pipe(d, e)) || Get(m, p) == Some(Pipe(e, d))
  }

  /** Tile `i` of a path neighbours the tiles before and after it and joins the sides facing them. */
  predicate Linked(m: Map, from: Direction, ps: seq<Pos>, i: nat)
    requires i < |ps| - 1
  {
    Neighbours(ps[i], ps[i + 1]) && (i > 0 ==> Neighbours(ps[i], ps[i - 1]))
    && Joins(m, ps[i], EntrySide(from, ps, i), Toward(ps[i], ps[i + 1]))
  }

  /** A pipe path entered from `from`: neighbouring tiles, each a pipe that joins the side facing the
      tile before it to the side facing the tile after it, ending on an S. */
  predicate PipePath(m: Map, from: Direction, ps: seq<Pos>) {
    |ps| > 0
    && Get(m, ps[|ps| - 1]) == Some(Start)
    && forall i :: 0 <= i < |ps| - 1 ==> Linked(m, from, ps, i)
  }

  function Elements(ps: seq<Pos>): (s: set<Pos>)
    ensures forall p :: p in s <==> p in ps
  {
    set p | p in ps
  }

  /** A sequence without repetitions has as many elements as positions. */
  lemma {:induction false} DistinctElements(ps: seq<Pos>)
    requires forall i, j :: 0 <= i < j < |ps| ==> ps[i] != ps[j]
    ensures |Elements(ps)| == |ps|
  {
    if ps != [] {
      var rest := ps[1..];
      DistinctElements(rest);
      assert Elements(ps) == {ps[0]} + Elements(rest);
      assert ps[0] !in Elements(rest) by {
        forall k | 0 <= k < |rest|
          ensures rest[k] != ps[0]
        {
          assert rest[k] == ps[k + 1];
        }
      }
    }
  }

  lemma ElementsCons(visited: set<Pos>, ps: seq<Pos>)
    requires ps != []
    ensures visited + {ps[0]} + Elements(ps[1..]) == visited + Elements(ps)
  {
    assert ps == [ps[0]] + ps[1..];
  }

  /** A pipe path with one more tile in front of it. */
  lemma PipePathCons(m: Map, pos: Pos, from: Direction, next: Direction, ps: seq<Pos>)
    requires Joins(m, pos, from, next)
    requires PipePath(m, Inverse(next), ps) && ps[0] == Step(pos, next)
    ensures PipePath(m, from, [pos] + ps)
  {
    var qs := [pos] + ps;
    TowardStep(pos, next);
    StepBack(pos, next);
    TowardStep(Step(pos, next), Inverse(next));
    assert Linked(m, from, qs, 0);
    forall i | 1 <= i < |qs| - 1
      ensures Linked(m, from, qs, i)
    {
      assert Linked(m, Inverse(next), ps, i - 1);
      assert qs[i] == ps[i - 1] && qs[i + 1] == ps[i] && qs[i - 1] == (if i == 1 then pos else ps[i - 2]);
      assert EntrySide(from, qs, i) == EntrySide(Inverse(next), ps, i - 1);
    }
  }

  /** What `_get_loop` returns when it closes the loop is the tiles of a pipe path to an S. */
  lemma {:induction false} WalkLoopPath(m: Map, visited: set<Pos>, pos: Pos, from: Direction, fuel: nat)
    requires WalkLoop(m, visited, pos, from, fuel).Closed?
    ensures exists ps :: (PipePath(m, from, ps) && ps[0] == pos && |ps| <= fuel
                          && WalkLoop(m, visited, pos, from, fuel).tiles == visited + Elements(ps))
    decreases fuel
  {
    var tile := Get(m, pos).value;
    if tile == Start {
      var ps := [pos];
      assert PipePath(m, from, ps);
      assert Elements(ps) == {pos};
      WalkLoopClose(m, visited, pos, from, fuel);
    } else {
      var next := Travel(tile, from).value;
      TravelJoins(tile, from, next);
      WalkLoopPath(m, visited + {pos}, Step(pos, next), Inverse(next), fuel - 1);
      var ps :| PipePath(m, Inverse(next), ps) && ps[0] == Step(pos, next) && |ps| <= fuel - 1
        && WalkLoop(m, visited + {pos}, Step(pos, next), Inverse(next), fuel - 1).tiles == visited + {pos} + Elements(ps);
      PipePathCons(m, pos, from, next, ps);
      WalkLoopStep(m, visited, pos, from, next, fuel);
      var qs := [pos] + ps;
      assert qs[0] == pos && qs[1..] == ps && |qs| <= fuel;
      ElementsCons(visited, qs);
    }
  }

  /** A pipe path without its first tile is a pipe path entered from the side facing that tile. */
  lemma PipePathTail(m: Map, from: Direction, ps: seq<Pos>)
    requires PipePath(m, from, ps) && |ps| > 1
    ensures Linked(m, from, ps, 0)
    ensures var next := Toward(ps[0], ps[1]);
      Joins(m, ps[0], from, next) && ps[1] == Step(ps[0], next) && PipePath(m, Inverse(next), ps[1..])
  {
    assert Linked(m, from, ps, 0);
    var next := Toward(ps[0], ps[1]);
    var rest := ps[1..];
    StepBack(ps[0], next);
    assert Toward(ps[1], ps[0]) == Inverse(next) by {
      TowardStep(ps[1], Inverse(next));
    }
    forall i | 0 <= i < |rest| - 1
      ensures Linked(m, Inverse(next), rest, i)
    {
      assert Linked(m, from, ps, i + 1);
      assert rest[i] == ps[i + 1] && rest[i + 1] == ps[i + 2] && (i > 0 ==> rest[i - 1] == ps[i]);
      assert EntrySide(Inverse(next), rest, i) == EntrySide(from, ps, i + 1);
    }
  }

  /** Conversely, a pipe path no longer than the bound is followed to its end. */
  lemma {:induction false} PathWalkLoop(m: Map, visited: set<Pos>, from: Direction, ps: seq<Pos>, fuel: nat)
    requires PipePath(m, from, ps) && |ps| <= fuel
    ensures WalkLoop(m, visited, ps[0], from, fuel) == Closed(visited + Elements(ps))
    decreases |ps|
  {
    if |ps| == 1 {
      WalkLoopClose(m, visited, ps[0], from, fuel);
      assert Elements(ps) == {ps[0]};
    } else {
      PipePathTail(m, from, ps);
      var pos, next := ps[0], Toward(ps[0], ps[1]);
      var tiles := visited + {pos} + Elements(ps[1..]);
      PathWalkLoop(m, visited + {pos}, Inverse(next), ps[1..], fuel - 1);
      WalkLoopStep(m, visited, pos, from, next, fuel);
      assert WalkLoop(m, visited, pos, from, fuel) == Closed(tiles);
      ElementsCons(visited, ps);
    }
  }

  /** The tile next to S that is entered from `d` when the loop is looked for in direction `d`. */
  function Beside(m: Map, d: Direction): Pos {
    Pos(-Offset(d).x + m.start.x, -Offset(d).y + m.start.y)
  }

  /** `Map::get_loop` over the directions of `dirs`: the first loop found, a panic of `unwrap` when
      every walk is a dead end, or a walk over the step bound. */
  function FindLoop(m: Map, dirs: seq<Direction>, fuel: nat): (r: Result<set<Pos>>)
    ensures r == Err(UNWRAP_NONE) <==> forall k :: 0 <= k < |dirs| ==> WalkLoop(m, {}, Beside(m, dirs[k]), dirs[k], fuel).DeadEnd?
    ensures r.Ok? ==> exists k :: (0 <= k < |dirs| && WalkLoop(m, {}, Beside(m, dirs[k]), dirs[k], fuel) == Closed(r.value)
                                   && forall j :: 0 <= j < k ==> WalkLoop(m, {}, Beside(m, dirs[j]), dirs[j], fuel).DeadEnd?)
  {
    if dirs == [] then Err(UNWRAP_NONE)
    else match WalkLoop(m, {}, Beside(m, dirs[0]), dirs[0], fuel)
      case Closed(loop) => Ok(loop)
      case OutOfSteps => Err(STEP_BOUND)
      case DeadEnd =>
        var r := FindLoop(m, dirs[1..], fuel);
        assert forall k :: 1 <= k < |dirs| ==> dirs[k] == dirs[1..][k - 1];
        r
  }

  const STEP_BOUND: string := "the walk around the loop is longer than the step bound"

  /** The loop found has no more tiles than the fuel. */
  lemma FindLoopSize(m: Map, dirs: seq<Direction>, fuel: nat)
    requires FindLoop(m, dirs, fuel).Ok?
    ensures |FindLoop(m, dirs, fuel).value| <= fuel
  {
    var k :| 0 <= k < |dirs| && WalkLoop(m, {}, Beside(m, dirs[k]), dirs[k], fuel) == Closed(FindLoop(m, dirs, fuel).value);
    WalkLoopSize(m, {}, Beside(m, dirs[k]), dirs[k], fuel);
  }

  /** The loop found next to S holds S's neighbour on that side and is a pipe path back to an S. */
  lemma FindLoopPath(m: Map, fuel: nat)
    requires FindLoop(m, ALL, fuel).Ok?
    ensures exists d, ps :: PipePath(m, d, ps) && ps[0] == Beside(m, d) && FindLoop(m, ALL, fuel).value == Elements(ps)
  {
    var loop := FindLoop(m, ALL, fuel).value;
    var k :| 0 <= k < |ALL| && WalkLoop(m, {}, Beside(m, ALL[k]), ALL[k], fuel) == Closed(loop);
    var d := ALL[k];
    WalkLoopPath(m, {}, Beside(m, d), d, fuel);
    var ps :| PipePath(m, d, ps) && ps[0] == Beside(m, d) && |ps| <= fuel && loop == {} + Elements(ps);
    NoneVisited(Elements(ps));
  }

  /** The loop found in the first direction tried. */
  lemma FindLoopFirst(m: Map, dirs: seq<Direction>, fuel: nat, loop: set<Pos>)
    requires dirs != [] && WalkLoop(m, {}, Beside(m, dirs[0]), dirs[0], fuel) == Closed(loop)
    ensures FindLoop(m, dirs, fuel) == Ok(loop)
  {
  }

  /** The fuel standing in for the source's unbounded walk: twice the number of tiles, plus one.
      That every walk the source finishes ends within it is not proved here; a longer walk is
      reported as `STEP_BOUND`. */
  function StepBound(m: Map): nat {
    2 * TileCount(m.tiles) + 1
  }

  function TileCount(tiles: seq<seq<Tile>>): nat {
    if tiles == [] then 0 else |tiles[0]| + TileCount(tiles[1..])
  }

  /** `day10_1`: half the length of the loop, which is never more than the number of tiles. */
  function Part1(input: string): (r: Result<nat>)
    ensures MapOf(input).Err? ==> r == Err(MapOf(input).msg)
    ensures r.Ok? ==> MapOf(input).Ok? && r.value <= TileCount(MapOf(input).value.tiles)
  {
    var m :- MapOf(input);
    var loop :- FindLoop(m, ALL, StepBound(m));
    FindLoopSize(m, ALL, StepBound(m));
    Ok(|loop| / 2)
  }

  /** The answer is half the number of tiles of a pipe path from a neighbour of S back to an S. */
  lemma Part1Path(input: string)
    requires Part1(input).Ok?
    ensures var m := MapOf(input).value;
      exists d, ps :: PipePath(m, d, ps) && ps[0] == Beside(m, d) && Part1(input).value == |Elements(ps)| / 2
  {
    var m := MapOf(input).value;
    FindLoopPath(m, StepBound(m));
  }

  // ---------------------------------------------------------------------------------------------
  // The unit tests

  const G := Ground
  const V := Pipe(North, South)
  const H := Pipe(East, West)
  const L := Pipe(North, East)
  const J := Pipe(North, West)
  const SEVEN := Pipe(South, West)
  const F := Pipe(South, East)

  /** The first sample: a square loop around one ground tile, S at the top left. */
  function Square(): Map {
    Map([[G, G, G, G, G],
         [G, Start, H, SEVEN, G],
         [G, V, G, V, G],
         [G, L, H, J, G],
         [G, G, G, G, G]], Pos(1, -1), Pos(5, 5))
  }

  /** The first sample's loop is found going down from S; it has 8 tiles, so the answer is 4. */
  lemma SampleSquare(fuel: nat)
    requires fuel >= 8
    ensures FindLoop(Square(), ALL, fuel).Ok? && |FindLoop(Square(), ALL, fuel).value| / 2 == 4
  {
    var m := Square();
    var t := m.tiles;
    assert |t| == 5 && |t[1]| == 5 && |t[2]| == 5 && |t[3]| == 5;
    assert t[1][1] == Start && t[1][2] == H && t[1][3] == SEVEN;
    assert t[2][1] == V && t[2][3] == V;
    assert t[3][1] == L && t[3][2] == H && t[3][3] == J;
    var ps := [Pos(1, -2), Pos(1, -3), Pos(2, -3), Pos(3, -3), Pos(3, -2), Pos(3, -1), Pos(2, -1), Pos(1, -1)];
    SquareLoopFound(m, fuel, ps);
  }

  /** The loop of the first sample is found from the tile below S and holds its 8 tiles. */
  lemma SquareLoopFound(m: Map, fuel: nat, ps: seq<Pos>)
    requires fuel >= 8
    requires m.start == Pos(1, -1)
    requires |m.tiles| == 5 && |m.tiles[1]| == 5 && |m.tiles[2]| == 5 && |m.tiles[3]| == 5
    requires m.tiles[1][1] == Start && m.tiles[1][2] == H && m.tiles[1][3] == SEVEN
    requires m.tiles[2][1] == V && m.tiles[2][3] == V
    requires m.tiles[3][1] == L && m.tiles[3][2] == H && m.tiles[3][3] == J
    requires |ps| == 8 && ps[0] == Pos(1, -2) && ps[1] == Pos(1, -3) && ps[2] == Pos(2, -3) && ps[3] == Pos(3, -3)
      && ps[4] == Pos(3, -2) && ps[5] == Pos(3, -1) && ps[6] == Pos(2, -1) && ps[7] == Pos(1, -1)
    ensures FindLoop(m, ALL, fuel) == Ok(Elements(ps)) && |Elements(ps)| == 8
  {
    SquarePath(m, ps);
    PathWalkLoop(m, {}, North, ps, fuel);
    NoneVisited(Elements(ps));
    FindLoopFirst(m, ALL, fuel, Elements(ps));
    SquareDistinct(ps);
  }

  lemma NoneVisited(s: set<Pos>)
    ensures {} + s == s
  {
  }

  /** The loop of the first sample, from the tile below S, is a pipe path. */
  lemma SquarePath(m: Map, ps: seq<Pos>)
    requires m.start == Pos(1, -1)
    requires |m.tiles| == 5 && |m.tiles[1]| == 5 && |m.tiles[2]| == 5 && |m.tiles[3]| == 5
    requires m.tiles[1][1] == Start && m.tiles[1][2] == H && m.tiles[1][3] == SEVEN
    requires m.tiles[2][1] == V && m.tiles[2][3] == V
    requires m.tiles[3][1] == L && m.tiles[3][2] == H && m.tiles[3][3] == J
    requires |ps| == 8 && ps[0] == Pos(1, -2) && ps[1] == Pos(1, -3) && ps[2] == Pos(2, -3) && ps[3] == Pos(3, -3)
      && ps[4] == Pos(3, -2) && ps[5] == Pos(3, -1) && ps[6] == Pos(2, -1) && ps[7] == Pos(1, -1)
    ensures Beside(m, North) == ps[0] && PipePath(m, North, ps)
  {
    forall i | 0 <= i < |ps| - 1
      ensures Linked(m, North, ps, i)
    {
      SquareLinked(m, ps, i);
    }
  }

  /** The 8 tiles of the first sample's loop are distinct. */
  lemma SquareDistinct(ps: seq<Pos>)
    requires |ps| == 8 && ps[0] == Pos(1, -2) && ps[1] == Pos(1, -3) && ps[2] == Pos(2, -3) && ps[3] == Pos(3, -3)
      && ps[4] == Pos(3, -2) && ps[5] == Pos(3, -1) && ps[6] == Pos(2, -1) && ps[7] == Pos(1, -1)
    ensures |Elements(ps)| == 8
  {
    DistinctElements(ps);
  }

  /** Each tile of the first sample's loop but S joins its two neighbours on the loop. */
  lemma SquareLinked(m: Map, ps: seq<Pos>, i: nat)
    requires m.start == Pos(1, -1)
    requires |m.tiles| == 5 && |m.tiles[1]| == 5 && |m.tiles[2]| == 5 && |m.tiles[3]| == 5
    requires m.tiles[1][1] == Start && m.tiles[1][2] == H && m.tiles[1][3] == SEVEN
    requires m.tiles[2][1] == V && m.tiles[2][3] == V
    requires m.tiles[3][1] == L && m.tiles[3][2] == H && m.tiles[3][3] == J
    requires |ps| == 8 && ps[0] == Pos(1, -2) && ps[1] == Pos(1, -3) && ps[2] == Pos(2, -3) && ps[3] == Pos(3, -3)
      && ps[4] == Pos(3, -2) && ps[5] == Pos(3, -1) && ps[6] == Pos(2, -1) && ps[7] == Pos(1, -1)
    requires i < 7
    ensures Linked(m, North, ps, i)
  {
    if i == 0 {
    } else if i == 1 {
    } else if i == 2 {
    } else if i == 3 {
    } else if i == 4 {
    } else if i == 5 {
    } else {
    }
  }
}
