/** 2015 day 6: a 1000×1000 grid of lights changed by rectangle commands. */
module Y2015Day06 {
  import opened Outcomes
  import opened Text

  datatype Action = TurnOn | TurnOff | Toggle

  /** The two kinds of light: on/off lights, and lights with a brightness level. */
  datatype Light = ToggleLight(on: bool) | FaderLight(level: int)

  /** A light whose brightness is never negative, as every light reachable from the default is. */
  predicate Sane(l: Light) {
    l.FaderLight? ==> l.level >= 0
  }

  /** `handle_command` of both lights. */
  function Handle(l: Light, a: Action): (r: Light)
    ensures r.ToggleLight? == l.ToggleLight?
    ensures Sane(l) ==> Sane(r)
  {
    match l
    case ToggleLight(on) =>
      (match a
       case TurnOn => ToggleLight(true)
       case TurnOff => ToggleLight(false)
       case Toggle => ToggleLight(!on))
    case FaderLight(v) =>
      (match a
       case TurnOn => FaderLight(v + 1)
       case TurnOff => FaderLight(if v - 1 > 0 then v - 1 else 0)
       case Toggle => FaderLight(v + 2))
  }

  function Brightness(l: Light): (b: int)
    ensures Sane(l) ==> b >= 0
    ensures l.ToggleLight? ==> b == if l.on then 1 else 0
  {
    match l
    case ToggleLight(on) => if on then 1 else 0
    case FaderLight(v) => v
  }

  /** Toggling an on/off light twice leaves it as it was; turning it on or off forgets its state. */
  lemma ToggleLightLaws(b: bool)
    ensures Handle(Handle(ToggleLight(b), Toggle), Toggle) == ToggleLight(b)
    ensures Handle(ToggleLight(b), TurnOn) == ToggleLight(true) && Handle(ToggleLight(b), TurnOff) == ToggleLight(false)
    ensures Handle(ToggleLight(b), Toggle).on == !b
  {
  }

  /** A fader goes up by one or two, or down by one but never below zero. */
  lemma FaderLightLaws(v: int)
    requires v >= 0
    ensures Brightness(Handle(FaderLight(v), TurnOn)) == v + 1
    ensures Brightness(Handle(FaderLight(v), Toggle)) == v + 2
    ensures Brightness(Handle(FaderLight(v), TurnOff)) == if v == 0 then 0 else v - 1
  {
  }

  // ---------------------------------------------------------------------------------------------
  // The grid as a value

  const SIZE: nat := 1000

  type Grid = seq<seq<Light>>

  predicate IsGrid(g: Grid) {
    |g| == SIZE && forall y :: 0 <= y < SIZE ==> |g[y]| == SIZE
  }

  /** `LightGrid::new`: every light in its default state. */
  function Uniform(l: Light): (g: Grid)
    ensures IsGrid(g) && forall y, x :: 0 <= y < SIZE && 0 <= x < SIZE ==> g[y][x] == l
  {
    seq(SIZE, y => seq(SIZE, x => l))
  }

  datatype Command = Command(action: Action, from: (nat, nat), to: (nat, nat))

  /** The column loop of `change` runs past the last column. */
  predicate ColumnsFail(cmd: Command) {
    cmd.from.0 <= cmd.to.0 && cmd.to.0 >= SIZE
  }

  /** `change` succeeds: the row range is empty, or it fits and the column range does. */
  predicate ChangeOk(cmd: Command) {
    cmd.from.1 > cmd.to.1 || (cmd.to.1 < SIZE && !ColumnsFail(cmd))
  }

  /** The cells `change` updates: those in the rectangle, except that when the columns run past
      the edge, only the first row is reached before the error. */
  predicate Updated(cmd: Command, y: nat, x: nat) {
    cmd.from.1 <= y <= cmd.to.1 && cmd.from.0 <= x <= cmd.to.0 && (ColumnsFail(cmd) ==> y == cmd.from.1)
  }

  /** The grid after `change`, cell by cell. */
  function Changed(g: Grid, cmd: Command): (r: Grid)
    requires IsGrid(g)
    ensures IsGrid(r)
  {
    seq(SIZE, y requires 0 <= y < SIZE => seq(SIZE, x requires 0 <= x < SIZE =>
      if Updated(cmd, y, x) then Handle(g[y][x], cmd.action) else g[y][x]))
  }

  /** Sum of the brightness of a row. */
  function RowBrightness(row: seq<Light>): int {
    if row == [] then 0 else RowBrightness(row[..|row| - 1]) + Brightness(row[|row| - 1])
  }

  /** `LightGrid::brightness`: the sum over every cell. */
  function GridBrightness(g: seq<seq<Light>>): int {
    if g == [] then 0 else GridBrightness(g[..|g| - 1]) + RowBrightness(g[|g| - 1])
  }

  lemma {:induction false} RowBrightnessUniform(row: seq<Light>, l: Light)
    requires forall x :: 0 <= x < |row| ==> row[x] == l
    ensures RowBrightness(row) == |row| * Brightness(l)
  {
    if row != [] {
      RowBrightnessUniform(row[..|row| - 1], l);
    }
  }

  lemma {:induction false} RowBrightnessSane(row: seq<Light>)
    requires forall x :: 0 <= x < |row| ==> Sane(row[x])
    ensures RowBrightness(row) >= 0
  {
    if row != [] {
      RowBrightnessSane(row[..|row| - 1]);
    }
  }

  lemma {:induction false} GridBrightnessSane(g: seq<seq<Light>>)
    requires forall y, x :: 0 <= y < |g| && 0 <= x < |g[y]| ==> Sane(g[y][x])
    ensures GridBrightness(g) >= 0
  {
    if g != [] {
      GridBrightnessSane(g[..|g| - 1]);
      RowBrightnessSane(g[|g| - 1]);
    }
  }

  /** The brightness of a grid whose rows after the first are dark is that of its first row. */
  lemma {:induction false} GridBrightnessFirstRow(g: seq<seq<Light>>)
    requires g != [] && forall y :: 1 <= y < |g| ==> RowBrightness(g[y]) == 0
    ensures GridBrightness(g) == RowBrightness(g[0])
  {
    if |g| > 1 {
      GridBrightnessFirstRow(g[..|g| - 1]);
    }
  }

  lemma {:induction false} GridBrightnessUniformRows(g: seq<seq<Light>>, c: int)
    requires forall y :: 0 <= y < |g| ==> RowBrightness(g[y]) == c
    ensures GridBrightness(g) == |g| * c
  {
    if g != [] {
      GridBrightnessUniformRows(g[..|g| - 1], c);
    }
  }

  /** A grid of one light, turned all the same way, is as bright as its cells added up. */
  lemma UniformBrightness(l: Light)
    ensures GridBrightness(Uniform(l)) == SIZE * (SIZE * Brightness(l))
  {
    var g := Uniform(l);
    forall y | 0 <= y < SIZE
      ensures RowBrightness(g[y]) == SIZE * Brightness(l)
    {
      RowBrightnessUniform(g[y], l);
    }
    GridBrightnessUniformRows(g, SIZE * Brightness(l));
  }

  // ---------------------------------------------------------------------------------------------
  // The grid in place

  class LightGrid {
    /** Row `y`, column `x` is `cells[y, x]`. */
    var cells: array2<Light>

    ghost predicate Valid()
      reads this, cells
    {
      cells.Length0 == SIZE && cells.Length1 == SIZE &&
      forall y, x :: 0 <= y < SIZE && 0 <= x < SIZE ==> Sane(cells[y, x])
    }

    /** The lights as a value. */
    ghost function Contents(): (g: Grid)
      requires cells.Length0 == SIZE && cells.Length1 == SIZE
      reads this, cells
      ensures IsGrid(g) && forall y, x :: 0 <= y < SIZE && 0 <= x < SIZE ==> g[y][x] == cells[y, x]
    {
      seq(cells.Length0, y requires 0 <= y < cells.Length0 reads this, cells =>
        seq(cells.Length1, x requires 0 <= y < cells.Length0 && 0 <= x < cells.Length1 reads this, cells => cells[y, x]))
    }

    /** `LightGrid::new`. */
    constructor (default: Light)
      requires Sane(default)
      ensures Valid() && fresh(cells) && Contents() == Uniform(default)
    {
      cells := new Light[SIZE, SIZE]((y, x) => default);
      new;
      assert forall y :: 0 <= y < SIZE ==> Contents()[y] == Uniform(default)[y];
    }

    /** The column loop of `change` for row `y`. */
    method ChangeRow(y: nat, cmd: Command) returns (r: Result<()>)
      requires Valid() && y < SIZE
      modifies cells
      ensures Valid()
      ensures r.Ok? <==> !ColumnsFail(cmd)
      ensures forall y', x :: 0 <= y' < SIZE && 0 <= x < SIZE ==>
        cells[y', x] == if y' == y && cmd.from.0 <= x <= cmd.to.0 then Handle(old(cells[y', x]), cmd.action) else old(cells[y', x])
    {
      var x := cmd.from.0;
      while x <= cmd.to.0
        invariant Valid()
        invariant cmd.from.0 <= x && (cmd.from.0 > cmd.to.0 ==> x == cmd.from.0)
        invariant x == cmd.from.0 || x <= SIZE
        invariant cmd.from.0 <= cmd.to.0 ==> x <= cmd.to.0 + 1
        invariant forall y', x' :: 0 <= y' < SIZE && 0 <= x' < SIZE ==>
          cells[y', x'] == if y' == y && cmd.from.0 <= x' < x then Handle(old(cells[y', x']), cmd.action) else old(cells[y', x'])
        decreases cmd.to.0 + 1 - x
      {
        if x >= SIZE {
          return Err("Invalid x coord " + Decimal(x));
        }
        cells[y, x] := Handle(cells[y, x], cmd.action);
        x := x + 1;
      }
      forall y', x' | 0 <= y' < SIZE && 0 <= x' < SIZE
        ensures cells[y', x'] == if y' == y && cmd.from.0 <= x' <= cmd.to.0 then Handle(old(cells[y', x']), cmd.action) else old(cells[y', x'])
      {
        assert (cmd.from.0 <= x' < x) == (cmd.from.0 <= x' <= cmd.to.0);
      }
      return Ok(());
    }

    /** `change`: updates the rectangle row by row; an out-of-range row or column stops it with
        an error, keeping the cells already changed. */
    method Change(cmd: Command) returns (r: Result<()>)
      requires Valid()
      modifies cells
      ensures Valid()
      ensures r.Ok? <==> ChangeOk(cmd)
      ensures Contents() == Changed(old(Contents()), cmd)
    {
      ghost var before := Contents();
      var y := cmd.from.1;
      r := Ok(());
      while y <= cmd.to.1
        invariant Valid()
        invariant cmd.from.1 <= y && (y == cmd.from.1 || y <= SIZE)
        invariant cmd.from.1 > cmd.to.1 ==> y == cmd.from.1
        invariant cmd.from.1 <= cmd.to.1 ==> y <= cmd.to.1 + 1
        invariant y > cmd.from.1 ==> !ColumnsFail(cmd)
        invariant forall y', x :: 0 <= y' < SIZE && 0 <= x < SIZE ==>
          cells[y', x] == if cmd.from.1 <= y' < y && cmd.from.0 <= x <= cmd.to.0 then Handle(before[y'][x], cmd.action) else before[y'][x]
        decreases cmd.to.1 + 1 - y
      {
        if y >= SIZE {
          r := Err("invalid y coord " + Decimal(y));
          break;
        }
        var row := ChangeRow(y, cmd);
        y := y + 1;
        if row.Err? {
          r := row;
          break;
        }
      }
      assert forall y', x :: 0 <= y' < SIZE && 0 <= x < SIZE ==> Contents()[y'][x] == Changed(before, cmd)[y'][x];
      assert forall y' :: 0 <= y' < SIZE ==> Contents()[y'] == Changed(before, cmd)[y'];
    }

    /** `LightGrid::brightness`. */
    method TotalBrightness() returns (count: int)
      requires Valid()
      ensures count == GridBrightness(Contents()) && count >= 0
    {
      ghost var g := Contents();
      count := 0;
      for y := 0 to SIZE
        invariant count == GridBrightness(g[..y])
      {
        var rowCount := RowTotal(y);
        assert g[..y + 1][..y] == g[..y] && g[..y + 1][y] == g[y];
        count := count + rowCount;
      }
      assert g[..SIZE] == g;
      GridBrightnessSane(g);
    }

    /** The inner loop of `brightness`, over row `y`. */
    method RowTotal(y: nat) returns (count: int)
      requires Valid() && y < SIZE
      ensures count == RowBrightness(Contents()[y])
    {
      ghost var row := Contents()[y];
      count := 0;
      for x := 0 to SIZE
        invariant count == RowBrightness(row[..x])
      {
        assert row[..x + 1][..x] == row[..x];
        count := count + Brightness(cells[y, x]);
      }
      assert row[..SIZE] == row;
    }
  }

  // ---------------------------------------------------------------------------------------------
  // Commands

  /** The grid after the commands, applied in order from `g`. */
  function ApplyAll(g: Grid, cmds: seq<Command>): (r: Grid)
    requires IsGrid(g)
    ensures IsGrid(r)
  {
    if cmds == [] then g else Changed(ApplyAll(g, cmds[..|cmds| - 1]), cmds[|cmds| - 1])
  }

  /** The command loop of `day06_1` and `day06_2`. */
  method RunCommands(cmds: seq<Command>, default: Light) returns (r: Result<int>)
    requires Sane(default)
    ensures r.Ok? <==> forall i :: 0 <= i < |cmds| ==> ChangeOk(cmds[i])
    ensures r.Ok? ==> r.value == GridBrightness(ApplyAll(Uniform(default), cmds)) && r.value >= 0
  {
    var grid := new LightGrid(default);
    for i := 0 to |cmds|
      invariant grid.Valid() && fresh(grid.cells)
      invariant forall k :: 0 <= k < i ==> ChangeOk(cmds[k])
      invariant grid.Contents() == ApplyAll(Uniform(default), cmds[..i])
    {
      assert cmds[..i + 1][..i] == cmds[..i];
      var c := grid.Change(cmds[i]);
      if c.Err? {
        return Err(c.msg);
      }
    }
    assert cmds[..|cmds|] == cmds;
    var total := grid.TotalBrightness();
    return Ok(total);
  }

  // ---------------------------------------------------------------------------------------------
  // Parsing

  /** `parse_range`: "X,Y", both `usize`; a bad number's error names it and its `ParseIntError`. */
  function ParseRange(range: string): (r: Result<(nat, nat)>)
    ensures SplitOnce(range, ",").None? ==> r == Err("Invalid range, no comma")
    ensures SplitOnce(range, ",").Some? ==> var x, y := SplitOnce(range, ",").value.0, SplitOnce(range, ",").value.1;
      (r.Ok? <==> ParseUnsigned(x, U64_LIMIT).Some? && ParseUnsigned(y, U64_LIMIT).Some?) &&
      (r.Ok? ==> Some(r.value.0) == ParseUnsigned(x, U64_LIMIT) && Some(r.value.1) == ParseUnsigned(y, U64_LIMIT)) &&
      (ParseUnsigned(x, U64_LIMIT).None? ==>
        (IntError(x, false, U64_LIMIT).Some? &&
         r == Err("Error parsing " + x + ": " + IntErrorMessage(x, false, U64_LIMIT)))) &&
      (ParseUnsigned(x, U64_LIMIT).Some? && ParseUnsigned(y, U64_LIMIT).None? ==>
        (IntError(y, false, U64_LIMIT).Some? &&
         r == Err("Error parsing " + y + ": " + IntErrorMessage(y, false, U64_LIMIT))))
  {
    match SplitOnce(range, ",")
    case None => Err("Invalid range, no comma")
    case Some((x, y)) =>
      match ParseUnsigned(x, U64_LIMIT)
      case None => ParseUnsignedError(x, U64_LIMIT); Err("Error parsing " + x + ": " + IntErrorMessage(x, false, U64_LIMIT))
      case Some(vx) =>
        match ParseUnsigned(y, U64_LIMIT)
        case None => ParseUnsignedError(y, U64_LIMIT); Err("Error parsing " + y + ": " + IntErrorMessage(y, false, U64_LIMIT))
        case Some(vy) => Ok((vx, vy))
  }

  /** A missing second coordinate, as in "1,", reports the empty string and its `ParseIntError`. */
  lemma EmptyCoordinate(x: string)
    requires ',' !in x && ParseUnsigned(x, U64_LIMIT).Some?
    ensures ParseRange(x + ",") == Err("Error parsing : " + IntErrorText(Empty))
  {
    assert x + "," == x + "," + "";
    SplitOnceAt(x, ",", "");
    var e: string := [];
    assert "Error parsing " + e + ": " == "Error parsing : ";
  }

  function ActionText(a: Action): string {
    match a
    case TurnOn => "turn on"
    case TurnOff => "turn off"
    case Toggle => "toggle"
  }

  /** The prefix loop of `Command::parse`: the first of "turn on", "turn off", "toggle" that starts
      the line, with every leading repetition of it removed (trimming a prefix that does not match
      changes nothing). */
  function StripAction(s: string): (r: Option<(Action, string)>)
    ensures r.Some? ==> StartsWith(s, ActionText(r.value.0))
    ensures r.None? <==> !StartsWith(s, "turn on") && !StartsWith(s, "turn off") && !StartsWith(s, "toggle")
  {
    if StartsWith(s, "turn on") then Some((TurnOn, TrimStartMatches(s, "turn on")))
    else if StartsWith(s, "turn off") then Some((TurnOff, TrimStartMatches(s, "turn off")))
    else if StartsWith(s, "toggle") then Some((Toggle, TrimStartMatches(s, "toggle")))
    else None
  }

  /** `Command::parse`: an action, then "X,Y through X,Y". */
  function ParseCommand(line: string): (r: Result<Command>)
    ensures r.Ok? ==> StripAction(line).Some? && r.value.action == StripAction(line).value.0
    ensures StripAction(line).None? ==> r == Err("invalid prefix on command " + line)
    ensures StripAction(line).Some? ==> var rest := TrimStart(StripAction(line).value.1);
      (SplitOnce(rest, " through ").None? ==> r == Err("invalid command " + line)) &&
      (SplitOnce(rest, " through ").Some? ==>
        var r1, r2 := SplitOnce(rest, " through ").value.0, SplitOnce(rest, " through ").value.1;
        (r.Ok? <==> ParseRange(r1).Ok? && ParseRange(r2).Ok?) &&
        (r.Ok? ==> r.value.from == ParseRange(r1).value && r.value.to == ParseRange(r2).value) &&
        (ParseRange(r1).Err? ==> r == Err(ParseRange(r1).msg)) &&
        (ParseRange(r1).Ok? && ParseRange(r2).Err? ==> r == Err(ParseRange(r2).msg)))
  {
    match StripAction(line)
    case None => Err("invalid prefix on command " + line)
    case Some((action, rest)) =>
      match SplitOnce(TrimStart(rest), " through ")
      case None => Err("invalid command " + line)
      case Some((r1, r2)) =>
        var from :- ParseRange(r1);
        var to :- ParseRange(r2);
        Ok(Command(action, from, to))
  }

  function ParseCommands(lines: seq<string>): (r: Result<seq<Command>>)
    ensures r.Ok? <==> forall i :: 0 <= i < |lines| ==> ParseCommand(lines[i]).Ok?
    ensures r.Ok? ==> |r.value| == |lines| && forall i :: 0 <= i < |lines| ==> ParseCommand(lines[i]) == Ok(r.value[i])
  {
    CollectAll(lines, ParseCommand)
  }

  /** A range as the puzzle writes it, "X,Y". */
  function RangeText(p: (nat, nat)): string {
    Decimal(p.0) + "," + Decimal(p.1)
  }

  /** A command as the puzzle writes it. */
  function CommandText(cmd: Command): string {
    ActionText(cmd.action) + " " + (RangeText(cmd.from) + " through " + RangeText(cmd.to))
  }

  lemma NoCommaInDigits(s: string)
    requires AllDigits(s)
    ensures ',' !in s && ' ' !in s
  {
    assert forall k :: 0 <= k < |s| ==> s[k] != ',' && s[k] != ' ';
  }

  lemma ParseRangeRoundTrip(p: (nat, nat))
    requires p.0 < U64_LIMIT && p.1 < U64_LIMIT
    ensures ParseRange(RangeText(p)) == Ok(p)
  {
    NoCommaInDigits(Decimal(p.0));
    SplitOnceAt(Decimal(p.0), ",", Decimal(p.1));
    DecimalRoundTrip(p.0, U64_LIMIT);
    DecimalRoundTrip(p.1, U64_LIMIT);
  }

  /** After the action is stripped, the rest of a written command is " X,Y through X,Y". */
  lemma StripWritten(a: Action, tail: string)
    requires tail != [] && IsDigit(tail[0])
    ensures StripAction(ActionText(a) + " " + tail) == Some((a, " " + tail))
  {
    var p := ActionText(a);
    var s := p + " " + tail;
    assert s[..|p|] == p;
    assert s[|p|..] == " " + tail;
    var rest := " " + tail;
    assert !StartsWith(rest, p) by {
      assert rest[0] == ' ' && p[0] != ' ';
      if |p| <= |rest| {
        assert rest[..|p|][0] == ' ';
      }
    }
    if a == TurnOff {
      assert !StartsWith(s, "turn on") by {
        assert s[5] == 'o' && s[6] == 'f';
      }
    }
    if a == Toggle {
      assert s[0] == 't' && s[1] == 'o';
      assert !StartsWith(s, "turn on") && !StartsWith(s, "turn off");
    }
  }

  /** The steps of `Command::parse` once the action and the two ranges are found. */
  lemma ParseCommandSteps(line: string, a: Action, rest: string, r1: string, r2: string)
    requires StripAction(line) == Some((a, rest))
    requires SplitOnce(TrimStart(rest), " through ") == Some((r1, r2))
    requires ParseRange(r1).Ok? && ParseRange(r2).Ok?
    ensures ParseCommand(line) == Ok(Command(a, ParseRange(r1).value, ParseRange(r2).value))
  {
  }

  /** The text after the action: a space, then two ranges around " through ". */
  lemma TailSplit(r1: string, r2: string)
    requires r1 != [] && IsDigit(r1[0]) && ' ' !in r1
    ensures TrimStart(" " + (r1 + " through " + r2)) == r1 + " through " + r2
    ensures SplitOnce(r1 + " through " + r2, " through ") == Some((r1, r2))
  {
    var tail := r1 + " through " + r2;
    assert (" " + tail)[1..] == tail;
    assert !IsAsciiWhitespace(tail[0]);
    SplitOnceAt(r1, " through ", r2);
  }

  lemma RangeTextShape(p: (nat, nat))
    ensures var r := RangeText(p); r != [] && IsDigit(r[0]) && ' ' !in r
  {
    NoCommaInDigits(Decimal(p.0));
    NoCommaInDigits(Decimal(p.1));
    assert RangeText(p)[0] == Decimal(p.0)[0];
  }

  /** Parsing reads back a command written in the puzzle's format. */
  lemma ParseCommandRoundTrip(cmd: Command)
    requires cmd.from.0 < U64_LIMIT && cmd.from.1 < U64_LIMIT && cmd.to.0 < U64_LIMIT && cmd.to.1 < U64_LIMIT
    ensures ParseCommand(CommandText(cmd)) == Ok(cmd)
  {
    var r1, r2 := RangeText(cmd.from), RangeText(cmd.to);
    var tail := r1 + " through " + r2;
    RangeTextShape(cmd.from);
    assert tail[0] == r1[0];
    StripWritten(cmd.action, tail);
    TailSplit(r1, r2);
    ParseRangeRoundTrip(cmd.from);
    ParseRangeRoundTrip(cmd.to);
    ParseCommandSteps(CommandText(cmd), cmd.action, " " + tail, r1, r2);
  }

  /** `day06_1`: on/off lights, all off at first. */
  method Part1(input: string) returns (r: Result<nat>)
    ensures r.Ok? <==> ParseCommands(Lines(input)).Ok? && forall i :: 0 <= i < |ParseCommands(Lines(input)).value| ==> ChangeOk(ParseCommands(Lines(input)).value[i])
    ensures r.Ok? ==> r.value == AsU128(GridBrightness(ApplyAll(Uniform(ToggleLight(false)), ParseCommands(Lines(input)).value)))
    ensures ParseCommands(Lines(input)).Err? ==> r == Err(ParseCommands(Lines(input)).msg)
  {
    var parsed := ParseCommands(Lines(input));
    if parsed.Err? {
      return Err(parsed.msg);
    }
    var total := RunCommands(parsed.value, ToggleLight(false));
    if total.Err? {
      return Err(total.msg);
    }
    return Ok(AsU128(total.value));
  }

  /** `day06_2`: brightness levels, all 0 at first. */
  method Part2(input: string) returns (r: Result<nat>)
    ensures r.Ok? <==> ParseCommands(Lines(input)).Ok? && forall i :: 0 <= i < |ParseCommands(Lines(input)).value| ==> ChangeOk(ParseCommands(Lines(input)).value[i])
    ensures r.Ok? ==> r.value == AsU128(GridBrightness(ApplyAll(Uniform(FaderLight(0)), ParseCommands(Lines(input)).value)))
    ensures ParseCommands(Lines(input)).Err? ==> r == Err(ParseCommands(Lines(input)).msg)
  {
    var parsed := ParseCommands(Lines(input));
    if parsed.Err? {
      return Err(parsed.msg);
    }
    var total := RunCommands(parsed.value, FaderLight(0));
    if total.Err? {
      return Err(total.msg);
    }
    return Ok(AsU128(total.value));
  }

  // ---------------------------------------------------------------------------------------------
  // Fixtures, on the parsed commands

  /** A command over the whole grid turns a uniform grid into another uniform grid. */
  lemma ChangedWhole(l: Light, a: Action)
    ensures Changed(Uniform(l), Command(a, (0, 0), (SIZE - 1, SIZE - 1))) == Uniform(Handle(l, a))
  {
    var g := Changed(Uniform(l), Command(a, (0, 0), (SIZE - 1, SIZE - 1)));
    assert forall y :: 0 <= y < SIZE ==> g[y] == Uniform(Handle(l, a))[y];
  }

  lemma FixtureTurnOnAll()
    ensures GridBrightness(ApplyAll(Uniform(ToggleLight(false)), [Command(TurnOn, (0, 0), (999, 999))])) == 1000000
  {
    var cmds := [Command(TurnOn, (0, 0), (999, 999))];
    assert cmds[..0] == [];
    ChangedWhole(ToggleLight(false), TurnOn);
    UniformBrightness(ToggleLight(true));
  }

  lemma FixtureToggleFirstRow()
    ensures GridBrightness(ApplyAll(Uniform(ToggleLight(false)), [Command(Toggle, (0, 0), (999, 0))])) == 1000
  {
    var cmds := [Command(Toggle, (0, 0), (999, 0))];
    assert cmds[..0] == [];
    var g := ApplyAll(Uniform(ToggleLight(false)), cmds);
    assert g == Changed(Uniform(ToggleLight(false)), cmds[0]);
    forall y | 1 <= y < SIZE
      ensures RowBrightness(g[y]) == 0
    {
      RowBrightnessUniform(g[y], ToggleLight(false));
    }
    RowBrightnessUniform(g[0], ToggleLight(true));
    GridBrightnessFirstRow(g);
  }

  lemma FixtureTurnOffMiddle()
    ensures GridBrightness(ApplyAll(Uniform(ToggleLight(false)), [Command(TurnOff, (499, 499), (500, 500))])) == 0
  {
    var cmds := [Command(TurnOff, (499, 499), (500, 500))];
    assert cmds[..0] == [];
    var g := ApplyAll(Uniform(ToggleLight(false)), cmds);
    assert g == Uniform(ToggleLight(false)) by {
      assert forall y :: 0 <= y < SIZE ==> g[y] == Uniform(ToggleLight(false))[y];
    }
    UniformBrightness(ToggleLight(false));
  }

  lemma FixtureFaderToggleAll()
    ensures GridBrightness(ApplyAll(Uniform(FaderLight(0)), [Command(Toggle, (0, 0), (999, 999))])) == 2000000
  {
    var cmds := [Command(Toggle, (0, 0), (999, 999))];
    assert cmds[..0] == [];
    ChangedWhole(FaderLight(0), Toggle);
    UniformBrightness(FaderLight(2));
  }
}
