/** 2023 day 3: an engine schematic of digits, symbols and '.'; numbers next to a symbol are part
    numbers, and a '*' next to exactly two of them is a gear. */
module Y2023Day03 {
  import opened Outcomes
  import opened Text
  import opened LineSums

  /** A cell as (column, row). */
  type Pos = (nat, nat)

  datatype PartNumber = PartNumber(pos: Pos, value: nat, len: nat)

  datatype Schematic = Schematic(symbols: map<Pos, char>, partNumbers: seq<PartNumber>)

  // ---------------------------------------------------------------------------------------------
  // Symbols

  /** Anything but '.' and the digits is a symbol. */
  predicate IsSymbol(c: char) {
    c != '.' && !IsDigit(c)
  }

  /** A reading position: column `x` of row `y`, or the end, just after the last row. */
  predicate ReadingPos(rows: seq<string>, x: nat, y: nat) {
    y <= |rows| && (y < |rows| ==> x <= |rows[y]|) && (y == |rows| ==> x == 0)
  }

  /** The symbols of `rows` that come before column `x` of row `y` in reading order, each
      inserted when the scan reaches it. */
  function SymbolsBefore(rows: seq<string>, x: nat, y: nat): map<Pos, char>
    requires ReadingPos(rows, x, y)
    decreases y, x
  {
    if x > 0 then
      var m := SymbolsBefore(rows, x - 1, y);
      if IsSymbol(rows[y][x - 1]) then m[(x - 1, y) := rows[y][x - 1]] else m
    else if y == 0 then map[]
    else SymbolsBefore(rows, |rows[y - 1]|, y - 1)
  }

  /** The scan holds exactly the symbols it has passed, each at its own position. */
  lemma {:induction false} SymbolsBeforeHolds(rows: seq<string>, x: nat, y: nat)
    requires ReadingPos(rows, x, y)
    ensures var m := SymbolsBefore(rows, x, y);
      forall a: nat, b: nat :: (a, b) in m <==>
        b < |rows| && a < |rows[b]| && (b < y || (b == y && a < x)) && IsSymbol(rows[b][a])
    ensures var m := SymbolsBefore(rows, x, y);
      forall a: nat, b: nat :: (a, b) in m ==> m[(a, b)] == rows[b][a]
    decreases y, x
  {
    if x > 0 {
      SymbolsBeforeHolds(rows, x - 1, y);
    } else if y > 0 {
      SymbolsBeforeHolds(rows, |rows[y - 1]|, y - 1);
    }
  }

  /** Every symbol of the schematic, keyed by its (column, row). */
  function SymbolsOf(rows: seq<string>): (m: map<Pos, char>)
    ensures forall a: nat, b: nat :: (a, b) in m <==> b < |rows| && a < |rows[b]| && IsSymbol(rows[b][a])
    ensures forall a: nat, b: nat :: (a, b) in m ==> m[(a, b)] == rows[b][a]
  {
    SymbolsBeforeHolds(rows, 0, |rows|);
    SymbolsBefore(rows, 0, |rows|)
  }

  /** The first loop of `Schematic::parse`: every symbol is inserted at its position. */
  method ParseSymbols(rows: seq<string>) returns (symbols: map<Pos, char>)
    ensures symbols == SymbolsOf(rows)
  {
    symbols := map[];
    for y := 0 to |rows|
      invariant symbols == SymbolsBefore(rows, 0, y)
    {
      var row := rows[y];
      for x := 0 to |row|
        invariant symbols == SymbolsBefore(rows, x, y)
      {
        var c := row[x];
        if IsSymbol(c) {
          symbols := symbols[(x, y) := c];
        }
      }
    }
  }

  // ---------------------------------------------------------------------------------------------
  // Runs of digits in a row

  /** A maximal run of digits of a row, as its first column and its digits. */
  datatype Run = Run(start: nat, digits: string)

  /** The first column at or after `x` that is not a digit, or `|row|`. */
  function RunEnd(row: string, x: nat): (e: nat)
    requires x <= |row|
    ensures x <= e <= |row| && (e < |row| ==> !IsDigit(row[e]))
    ensures forall k :: x <= k < e ==> IsDigit(row[k])
    decreases |row| - x
  {
    if x == |row| || !IsDigit(row[x]) then x else RunEnd(row, x + 1)
  }

  /** The maximal runs of digits of `row` that start at or after `x`, left to right. */
  function RunsFrom(row: string, x: nat): seq<Run>
    requires x <= |row|
    decreases |row| - x
  {
    if x == |row| then []
    else if !IsDigit(row[x]) then RunsFrom(row, x + 1)
    else
      var e := RunEnd(row, x);
      [Run(x, row[x..e])] + RunsFrom(row, e)
  }

  /** `r` is a maximal run of digits of `row`. */
  predicate MaximalRun(row: string, r: Run) {
    var e := r.start + |r.digits|;
    r.digits != [] && e <= |row| && row[r.start..e] == r.digits && AllDigits(r.digits) &&
    (r.start == 0 || !IsDigit(row[r.start - 1])) &&
    (e == |row| || !IsDigit(row[e]))
  }

  /** `x` does not split a run of digits. */
  predicate RunBoundary(row: string, x: nat)
    requires x <= |row|
  {
    x == 0 || x == |row| || !IsDigit(row[x - 1]) || !IsDigit(row[x])
  }

  /** Every run found from a boundary is a maximal run at or after it. */
  lemma {:induction false} RunsMaximal(row: string, x: nat)
    requires x <= |row| && RunBoundary(row, x)
    ensures forall i :: 0 <= i < |RunsFrom(row, x)| ==> MaximalRun(row, RunsFrom(row, x)[i]) && x <= RunsFrom(row, x)[i].start
    decreases |row| - x
  {
    if x < |row| {
      if !IsDigit(row[x]) {
        RunsMaximal(row, x + 1);
      } else {
        var e := RunEnd(row, x);
        RunsMaximal(row, e);
        assert MaximalRun(row, Run(x, row[x..e]));
      }
    }
  }

  /** The runs go left to right, with at least one column between two of them. */
  predicate Separated(rs: seq<Run>) {
    forall i :: 0 <= i < |rs| - 1 ==> rs[i].start + |rs[i].digits| < rs[i + 1].start
  }

  lemma {:induction false} RunsOrdered(row: string, x: nat)
    requires x <= |row| && RunBoundary(row, x)
    ensures Separated(RunsFrom(row, x))
    decreases |row| - x
  {
    if x < |row| {
      if !IsDigit(row[x]) {
        RunsOrdered(row, x + 1);
        assert RunsFrom(row, x) == RunsFrom(row, x + 1);
      } else {
        var e := RunEnd(row, x);
        var rest := RunsFrom(row, e);
        RunsOrdered(row, e);
        RunsMaximal(row, e);
        if rest != [] {
          assert MaximalRun(row, rest[0]) && e <= rest[0].start;
          assert IsDigit(row[rest[0].start]) by {
            assert rest[0].digits[0] == row[rest[0].start..rest[0].start + |rest[0].digits|][0];
          }
        }
        var rs := RunsFrom(row, x);
        assert rs == [Run(x, row[x..e])] + rest;
        forall i | 0 <= i < |rs| - 1
          ensures rs[i].start + |rs[i].digits| < rs[i + 1].start
        {
          if i == 0 {
            assert rs[0] == Run(x, row[x..e]) && rs[1] == rest[0];
            assert e < |row| ==> !IsDigit(row[e]);
            assert rest[0].start > e;
          } else {
            assert rs[i] == rest[i - 1] && rs[i + 1] == rest[(i - 1) + 1];
          }
        }
      }
    }
  }

  /** Every digit at or after `x` lies in one of the runs. */
  lemma {:induction false} RunsCover(row: string, x: nat, k: nat)
    requires x <= k < |row| && IsDigit(row[k])
    ensures exists i :: 0 <= i < |RunsFrom(row, x)| && RunsFrom(row, x)[i].start <= k < RunsFrom(row, x)[i].start + |RunsFrom(row, x)[i].digits|
    decreases |row| - x
  {
    var rs := RunsFrom(row, x);
    if !IsDigit(row[x]) {
      RunsCover(row, x + 1, k);
    } else {
      var e := RunEnd(row, x);
      var rest := RunsFrom(row, e);
      assert rs == [Run(x, row[x..e])] + rest;
      if k < e {
        assert rs[0].start <= k < rs[0].start + |rs[0].digits|;
      } else {
        RunsCover(row, e, k);
        var j :| 0 <= j < |rest| && rest[j].start <= k < rest[j].start + |rest[j].digits|;
        assert rs[j + 1] == rest[j];
      }
    }
  }

  /** A run of digits from a boundary `s` up to a non-digit or the end at `x` is the next run. */
  lemma RunClosed(row: string, s: nat, x: nat)
    requires s < x <= |row| && RunBoundary(row, s)
    requires forall k :: s <= k < x ==> IsDigit(row[k])
    requires x == |row| || !IsDigit(row[x])
    ensures RunsFrom(row, s) == [Run(s, row[s..x])] + RunsFrom(row, x)
  {
    assert RunEnd(row, s) == x;
  }

  // ---------------------------------------------------------------------------------------------
  // Part numbers

  /** `PartNumber::new`: `val` parsed as a `u128`, at column `x` of row `y`. */
  function NewPartNumber(x: nat, y: nat, val: string): (p: Result<PartNumber>)
    ensures p.Ok? <==> ParseUnsigned(val, U128_BOUND).Some?
    ensures p.Ok? ==> p.value == PartNumber((x, y), ParseUnsigned(val, U128_BOUND).value, |val|)
  {
    match ParseUnsigned(val, U128_BOUND)
    case None => Err("number too large to fit in target type")
    case Some(v) => Ok(PartNumber((x, y), v, |val|))
  }

  /** A run of digits of row `y` to its part number. */
  function PartOfRun(y: nat): Run -> Result<PartNumber> {
    (r: Run) => NewPartNumber(r.start, y, r.digits)
  }

  /** The part numbers of row `y`, left to right; the first run that overflows is the error. */
  function RowParts(row: string, y: nat): Result<seq<PartNumber>> {
    CollectAll(RunsFrom(row, 0), PartOfRun(y))
  }

  /** Each part number of a row is a maximal run of its digits: its position is the run's first
      column, its length the run's length and its value the run's decimal value. */
  lemma RowPartsAreRuns(row: string, y: nat)
    requires RowParts(row, y).Ok?
    ensures var ps := RowParts(row, y).value; var rs := RunsFrom(row, 0);
      |ps| == |rs| && forall i :: 0 <= i < |ps| ==>
        MaximalRun(row, rs[i]) && ps[i] == PartNumber((rs[i].start, y), DigitsValue(rs[i].digits), |rs[i].digits|)
  {
    RunsMaximal(row, 0);
    var ps := RowParts(row, y).value;
    var rs := RunsFrom(row, 0);
    forall i | 0 <= i < |ps|
      ensures ps[i] == PartNumber((rs[i].start, y), DigitsValue(rs[i].digits), |rs[i].digits|)
    {
      assert PartOfRun(y)(rs[i]) == Ok(ps[i]);
    }
  }

  /** Closing the run that started at `start` before the column `x`: it is the next run of the
      row, and its part number is collected or its error is the error of the whole row. */
  lemma CloseRun(row: string, y: nat, done: seq<Run>, found: seq<PartNumber>, start: nat, x: nat)
    requires start < x <= |row| && (x == |row| || !IsDigit(row[x]))
    requires forall k :: start <= k < x ==> IsDigit(row[k])
    requires RunBoundary(row, start) && RunsFrom(row, 0) == done + RunsFrom(row, start)
    requires CollectAll(done, PartOfRun(y)) == Ok(found)
    ensures var run := Run(start, row[start..x]);
      RunsFrom(row, 0) == (done + [run]) + RunsFrom(row, x) &&
      (NewPartNumber(start, y, row[start..x]).Ok? ==>
        CollectAll(done + [run], PartOfRun(y)) == Ok(found + [NewPartNumber(start, y, row[start..x]).value])) &&
      (NewPartNumber(start, y, row[start..x]).Err? ==>
        RowParts(row, y) == Err(NewPartNumber(start, y, row[start..x]).msg))
  {
    var run := Run(start, row[start..x]);
    RunClosed(row, start, x);
    assert done + RunsFrom(row, start) == (done + [run]) + RunsFrom(row, x);
    CollectAllSnoc(done, run, PartOfRun(y));
    if NewPartNumber(start, y, row[start..x]).Err? {
      CollectAllSticks(done + [run], RunsFrom(row, x), PartOfRun(y));
    }
  }

  /** The state of the row loop before column `x`: the runs `done` closed so far have given the
      part numbers `found`, and `current` holds the digits of the run that started at `start`. */
  predicate Scanned(row: string, y: nat, x: nat, done: seq<Run>, found: seq<PartNumber>, start: nat, current: Option<string>) {
    start <= x <= |row| && CollectAll(done, PartOfRun(y)) == Ok(found) &&
    (if current.None? then start == x else start < x && row[start..x] == current.value) &&
    (forall k :: start <= k < x ==> IsDigit(row[k])) &&
    RunBoundary(row, start) && RunsFrom(row, 0) == done + RunsFrom(row, start)
  }

  /** A digit extends the current run, or starts one. */
  lemma ScanDigit(row: string, y: nat, x: nat, done: seq<Run>, found: seq<PartNumber>, start: nat, current: Option<string>)
    requires Scanned(row, y, x, done, found, start, current) && x < |row| && IsDigit(row[x])
    ensures Scanned(row, y, x + 1, done, found, start, Some(if current.Some? then current.value + [row[x]] else [row[x]]))
  {
    assert row[start..x + 1] == row[start..x] + [row[x]];
  }

  /** A non-digit, or the end of the row, closes the current run: its part number is collected or
      its error is the error of the whole row. */
  lemma ScanClose(row: string, y: nat, x: nat, done: seq<Run>, found: seq<PartNumber>, start: nat, current: Option<string>)
    requires Scanned(row, y, x, done, found, start, current) && current.Some? && (x == |row| || !IsDigit(row[x]))
    ensures start == x - |current.value|
    ensures NewPartNumber(start, y, current.value).Err? ==> RowParts(row, y) == Err(NewPartNumber(start, y, current.value).msg)
    ensures NewPartNumber(start, y, current.value).Ok? ==>
      Scanned(row, y, x, done + [Run(start, current.value)], found + [NewPartNumber(start, y, current.value).value], x, None)
  {
    CloseRun(row, y, done, found, start, x);
  }

  /** A column that is neither a digit nor closes a run changes no run. */
  lemma ScanSkip(row: string, y: nat, x: nat, done: seq<Run>, found: seq<PartNumber>)
    requires Scanned(row, y, x, done, found, x, None) && x < |row| && !IsDigit(row[x])
    ensures Scanned(row, y, x + 1, done, found, x + 1, None)
  {
    assert RunsFrom(row, x) == RunsFrom(row, x + 1);
  }

  /** At the end of the row with no run open, every run has been collected. */
  lemma ScanEnd(row: string, y: nat, done: seq<Run>, found: seq<PartNumber>)
    requires Scanned(row, y, |row|, done, found, |row|, None)
    ensures RowParts(row, y) == Ok(found)
  {
    assert RunsFrom(row, |row|) == [] && done + [] == done;
  }

  /** The row loop of `Schematic::parse`: digits are collected in `current` and each run is
      turned into a part number when a non-digit or the end of the row closes it. */
  method ScanRow(row: string, y: nat) returns (res: Result<seq<PartNumber>>)
    ensures res == RowParts(row, y)
  {
    var found: seq<PartNumber> := [];
    var current: Option<string> := None;
    ghost var done: seq<Run> := [];
    ghost var start: nat := 0;
    assert CollectAll(done, PartOfRun(y)) == Ok(found);
    for x := 0 to |row|
      invariant Scanned(row, y, x, done, found, start, current)
    {
      var c := row[x];
      if IsDigit(c) {
        ScanDigit(row, y, x, done, found, start, current);
        if current.Some? {
          current := Some(current.value + [c]);
        } else {
          current := Some([c]);
        }
      } else {
        if current.Some? {
          var n := current.value;
          ScanClose(row, y, x, done, found, start, current);
          var part := NewPartNumber(x - |n|, y, n);
          if part.Err? {
            return Err(part.msg);
          }
          found := found + [part.value];
          done := done + [Run(start, n)];
          current := None;
          start := x;
        }
        ScanSkip(row, y, x, done, found);
        start := x + 1;
      }
    }
    if current.Some? {
      var n := current.value;
      ScanClose(row, y, |row|, done, found, start, current);
      var part := NewPartNumber(|row| - |n|, y, n);
      if part.Err? {
        return Err(part.msg);
      }
      found := found + [part.value];
      done := done + [Run(start, n)];
      current := None;
      start := |row|;
    }
    ScanEnd(row, y, done, found);
    return Ok(found);
  }

  // ---------------------------------------------------------------------------------------------
  // The schematic

  /** The part numbers of all rows, top to bottom; the first row with an error stops the parse. */
  function SchematicParts(rows: seq<string>): Result<seq<PartNumber>> {
    if rows == [] then Ok([])
    else
      var init :- SchematicParts(rows[..|rows| - 1]);
      var last :- RowParts(rows[|rows| - 1], |rows| - 1);
      Ok(init + last)
  }

  lemma {:induction false} SchematicPartsSticks(rows: seq<string>, y: nat)
    requires y <= |rows| && SchematicParts(rows[..y]).Err?
    ensures SchematicParts(rows) == SchematicParts(rows[..y])
    decreases |rows|
  {
    if y < |rows| {
      var init := rows[..|rows| - 1];
      assert init[..y] == rows[..y];
      SchematicPartsSticks(init, y);
    } else {
      assert rows[..y] == rows;
    }
  }

  /** One more row: its part numbers are appended, or its error is the error of the whole parse. */
  lemma SchematicPartsStep(rows: seq<string>, y: nat, parts: seq<PartNumber>)
    requires y < |rows| && SchematicParts(rows[..y]) == Ok(parts)
    ensures RowParts(rows[y], y).Ok? ==> SchematicParts(rows[..y + 1]) == Ok(parts + RowParts(rows[y], y).value)
    ensures RowParts(rows[y], y).Err? ==> SchematicParts(rows) == Err(RowParts(rows[y], y).msg)
  {
    assert rows[..y + 1][..y] == rows[..y];
    if RowParts(rows[y], y).Err? {
      SchematicPartsSticks(rows, y + 1);
    }
  }

  /** `Schematic::parse`. */
  function SchematicOf(input: string): Result<Schematic> {
    var rows := Lines(input);
    var parts :- SchematicParts(rows);
    Ok(Schematic(SymbolsOf(rows), parts))
  }

  method ParseSchematic(input: string) returns (res: Result<Schematic>)
    ensures res == SchematicOf(input)
  {
    var rows := Lines(input);
    var symbols := ParseSymbols(rows);
    var parts: seq<PartNumber> := [];
    for y := 0 to |rows|
      invariant SchematicParts(rows[..y]) == Ok(parts)
    {
      var rowParts := ScanRow(rows[y], y);
      SchematicPartsStep(rows, y, parts);
      if rowParts.Err? {
        return Err(rowParts.msg);
      }
      parts := parts + rowParts.value;
    }
    assert rows[..|rows|] == rows;
    return Ok(Schematic(symbols, parts));
  }

  /** `q` is the part number of a maximal run of digits of its row. */
  predicate RunOfRows(rows: seq<string>, q: PartNumber) {
    q.pos.1 < |rows| &&
    exists r :: r in RunsFrom(rows[q.pos.1], 0) && MaximalRun(rows[q.pos.1], r) &&
      q == PartNumber((r.start, q.pos.1), DigitsValue(r.digits), |r.digits|)
  }

  /** Every part number of the schematic is a maximal run of digits of some row, at that run's
      first column, with the run's length and decimal value. */
  lemma {:induction false} SchematicPartsAreRuns(rows: seq<string>)
    requires SchematicParts(rows).Ok?
    ensures forall q :: q in SchematicParts(rows).value ==> RunOfRows(rows, q)
  {
    if rows != [] {
      var n := |rows| - 1;
      var init := rows[..n];
      SchematicPartsAreRuns(init);
      RowPartsAreRuns(rows[n], n);
      var last := RowParts(rows[n], n).value;
      forall q | q in SchematicParts(rows).value
        ensures RunOfRows(rows, q)
      {
        if q in SchematicParts(init).value {
          assert rows[q.pos.1] == init[q.pos.1];
        } else {
          assert q in last;
          var i :| 0 <= i < |last| && last[i] == q;
          var r := RunsFrom(rows[n], 0)[i];
          assert q.pos.1 == n && r in RunsFrom(rows[n], 0);
        }
      }
    }
  }

  /** Parsing fails exactly when some run of digits is too large for a `u128`. */
  lemma RowPartsOk(row: string, y: nat)
    ensures RowParts(row, y).Ok? <==>
      forall r :: r in RunsFrom(row, 0) ==> AllDigits(r.digits) && DigitsValue(r.digits) < U128_BOUND
  {
    RunsMaximal(row, 0);
    var rs := RunsFrom(row, 0);
    forall i | 0 <= i < |rs|
      ensures PartOfRun(y)(rs[i]).Ok? <==> DigitsValue(rs[i].digits) < U128_BOUND
    {
      assert MaximalRun(row, rs[i]);
    }
  }

  // ---------------------------------------------------------------------------------------------
  // Neighbouring cells

  /** `checked_sub(1)` on a `usize`. */
  function CheckedPred(n: nat): (r: Option<nat>)
    ensures r.Some? <==> n > 0
    ensures r.Some? ==> r.value + 1 == n
  {
    if n == 0 then None else Some(n - 1)
  }

  /** `saturating_sub(1)` on a `usize`. */
  function SaturatingPred(n: nat): (r: nat)
    ensures n > 0 ==> r + 1 == n
    ensures n == 0 ==> r == 0
  {
    if n == 0 then 0 else n - 1
  }

  type Candidate = (Option<nat>, Option<nat>)

  /** The six cells at the two ends of a part number (a and c in the source's picture). */
  function Ends(p: PartNumber): seq<Candidate> {
    var (x, y) := p.pos;
    [(CheckedPred(x), CheckedPred(y)), (CheckedPred(x), Some(y)), (CheckedPred(x), Some(y + 1)),
     (Some(x + p.len), Some(SaturatingPred(y))), (Some(x + p.len), Some(y)), (Some(x + p.len), Some(y + 1))]
  }

  /** The cells above and below the first `k` columns of a part number, two per column. */
  function Columns(p: PartNumber, k: nat): (cs: seq<Candidate>)
    ensures |cs| == 2 * k
  {
    if k == 0 then []
    else
      var x: nat := p.pos.0 + k - 1;
      Columns(p, k - 1) + [(Some(x), CheckedPred(p.pos.1)), (Some(x), Some(p.pos.1 + 1))]
  }

  /** The candidates whose both coordinates exist (the `filter_map`). */
  function Present(cs: seq<Candidate>): seq<Pos> {
    if cs == [] then []
    else
      var init := Present(cs[..|cs| - 1]);
      match cs[|cs| - 1]
      case (Some(x), Some(y)) => init + [(x, y)]
      case _ => init
  }

  lemma {:induction false} PresentHolds(cs: seq<Candidate>, c: Pos)
    ensures c in Present(cs) <==> (Some(c.0), Some(c.1)) in cs
  {
    if cs != [] {
      var n := |cs| - 1;
      PresentHolds(cs[..n], c);
      assert cs == cs[..n] + [cs[n]];
    }
  }

  /** The cells `adjacent_indices` lists, in order. */
  function AdjacentCells(p: PartNumber): seq<Pos> {
    Present(Ends(p) + Columns(p, p.len))
  }

  /** `adjacent_indices`: the end cells, then a loop over the columns, then the filter. */
  method AdjacentIndices(p: PartNumber) returns (res: seq<Pos>)
    ensures res == AdjacentCells(p)
  {
    var cs := Ends(p);
    for x := p.pos.0 to p.pos.0 + p.len
      invariant cs == Ends(p) + Columns(p, x - p.pos.0)
    {
      cs := cs + [(Some(x), CheckedPred(p.pos.1))];
      cs := cs + [(Some(x), Some(p.pos.1 + 1))];
    }
    res := Present(cs);
  }

  /** The ring of cells around a part number: the columns from one before it to one after it on
      the row above and the row below, and the cell before and the cell after it on its own row. */
  predicate Neighbour(p: PartNumber, c: Pos) {
    var (x, y) := p.pos;
    ((c.1 + 1 == y || c.1 == y + 1) && x <= c.0 + 1 && c.0 <= x + p.len) ||
    (c.1 == y && (c.0 + 1 == x || c.0 == x + p.len))
  }

  lemma {:induction false} ColumnsHold(p: PartNumber, k: nat, a: nat, b: nat)
    ensures (Some(a), Some(b)) in Columns(p, k) <==> p.pos.0 <= a < p.pos.0 + k && (b + 1 == p.pos.1 || b == p.pos.1 + 1)
  {
    if k > 0 {
      ColumnsHold(p, k - 1, a, b);
    }
  }

  /** `adjacent_indices` lists exactly the ring of neighbouring cells with non-negative coordinates. */
  lemma AdjacentExactly(p: PartNumber, c: Pos)
    ensures c in AdjacentCells(p) <==> Neighbour(p, c)
  {
    ColumnsHold(p, p.len, c.0, c.1);
    PresentHolds(Ends(p) + Columns(p, p.len), c);
    var cand := (Some(c.0), Some(c.1));
    assert cand in Ends(p) + Columns(p, p.len) <==> cand in Ends(p) || cand in Columns(p, p.len);
  }

  /** The one place where the source uses `saturating_sub`: for a number on the first row the cell
      after its end is listed twice, once as the corner above it.  Every lookup only asks whether a
      cell is listed, so this does not change any answer. */
  lemma EndListedTwice(p: PartNumber)
    requires p.pos.1 == 0
    ensures multiset(AdjacentCells(p))[(p.pos.0 + p.len, 0)] == 2
  {
    var e := (p.pos.0 + p.len, 0);
    PresentAppend(Ends(p), Columns(p, p.len));
    ColumnsNotListing(p, p.len, e);
    EndsOnFirstRow(p);
  }

  lemma EndsOnFirstRow(p: PartNumber)
    requires p.pos.1 == 0
    ensures Present(Ends(p)) ==
      (if p.pos.0 == 0 then [] else [(p.pos.0 - 1, 0), (p.pos.0 - 1, 1)]) +
      [(p.pos.0 + p.len, 0), (p.pos.0 + p.len, 0), (p.pos.0 + p.len, 1)]
  {
    var ends := Ends(p);
    var x := CheckedPred(p.pos.0);
    var e := p.pos.0 + p.len;
    assert ends == [(x, None), (x, Some(0)), (x, Some(1))] + [(Some(e), Some(0)), (Some(e), Some(0)), (Some(e), Some(1))];
    PresentAppend([(x, None), (x, Some(0)), (x, Some(1))], [(Some(e), Some(0)), (Some(e), Some(0)), (Some(e), Some(1))]);
    PresentThree((x, None), (x, Some(0)), (x, Some(1)));
    PresentThree((Some(e), Some(0)), (Some(e), Some(0)), (Some(e), Some(1)));
  }

  lemma PresentThree(a: Candidate, b: Candidate, c: Candidate)
    ensures Present([a, b, c]) == Present([a]) + Present([b]) + Present([c])
  {
    assert [a, b, c] == [a, b] + [c] && [a, b] == [a] + [b];
    PresentAppend([a, b], [c]);
    PresentAppend([a], [b]);
  }

  lemma {:induction false} PresentAppend(a: seq<Candidate>, b: seq<Candidate>)
    ensures Present(a + b) == Present(a) + Present(b)
    decreases |b|
  {
    if b == [] {
      assert a + b == a;
    } else {
      var n := |b| - 1;
      assert (a + b)[..|a + b| - 1] == a + b[..n];
      PresentAppend(a, b[..n]);
    }
  }

  lemma {:induction false} ColumnsNotListing(p: PartNumber, k: nat, c: Pos)
    requires c.0 >= p.pos.0 + k
    ensures multiset(Present(Columns(p, k)))[c] == 0
  {
    ColumnsHold(p, k, c.0, c.1);
    PresentHolds(Columns(p, k), c);
  }

  // ---------------------------------------------------------------------------------------------
  // Part one: part numbers next to a symbol

  /** Some cell listed by `adjacent_indices` holds a symbol. */
  predicate NextToSymbol(p: PartNumber, symbols: map<Pos, char>) {
    exists i :: 0 <= i < |AdjacentCells(p)| && AdjacentCells(p)[i] in symbols
  }

  /** A part number is next to a symbol exactly when some cell of its ring holds one. */
  lemma NextToSymbolIff(p: PartNumber, symbols: map<Pos, char>)
    ensures NextToSymbol(p, symbols) <==> exists c :: c in symbols && Neighbour(p, c)
  {
    var cells := AdjacentCells(p);
    if NextToSymbol(p, symbols) {
      var i :| 0 <= i < |cells| && cells[i] in symbols;
      AdjacentExactly(p, cells[i]);
    }
    if c :| c in symbols && Neighbour(p, c) {
      AdjacentExactly(p, c);
      var i :| 0 <= i < |cells| && cells[i] == c;
      assert cells[i] in symbols;
    }
  }

  /** The filter closure of `day03_1`: look up each listed cell, stopping at the first symbol. */
  method HasAdjacentSymbol(p: PartNumber, symbols: map<Pos, char>) returns (b: bool)
    ensures b <==> NextToSymbol(p, symbols)
  {
    var cells := AdjacentIndices(p);
    for i := 0 to |cells|
      invariant forall k :: 0 <= k < i ==> cells[k] !in symbols
    {
      if cells[i] in symbols {
        return true;
      }
    }
    return false;
  }

  /** The sum of the values of the part numbers next to a symbol. */
  function PartSum(parts: seq<PartNumber>, symbols: map<Pos, char>): nat {
    if parts == [] then 0
    else PartSum(parts[..|parts| - 1], symbols) + (if NextToSymbol(parts[|parts| - 1], symbols) then parts[|parts| - 1].value else 0)
  }

  function TotalValue(parts: seq<PartNumber>): nat {
    if parts == [] then 0 else TotalValue(parts[..|parts| - 1]) + parts[|parts| - 1].value
  }

  /** The sum lies between nothing and every value; it is every value when every part number is
      next to a symbol and nothing when none is. */
  lemma {:induction false} PartSumBounds(parts: seq<PartNumber>, symbols: map<Pos, char>)
    ensures PartSum(parts, symbols) <= TotalValue(parts)
    ensures (forall i :: 0 <= i < |parts| ==> NextToSymbol(parts[i], symbols)) ==> PartSum(parts, symbols) == TotalValue(parts)
    ensures (forall i :: 0 <= i < |parts| ==> !NextToSymbol(parts[i], symbols)) ==> PartSum(parts, symbols) == 0
  {
    if parts != [] {
      var n := |parts| - 1;
      assert forall i :: 0 <= i < n ==> parts[..n][i] == parts[i];
      PartSumBounds(parts[..n], symbols);
    }
  }

  /** The sum over two blocks of part numbers is the sum of their sums. */
  lemma {:induction false} PartSumAppend(a: seq<PartNumber>, b: seq<PartNumber>, symbols: map<Pos, char>)
    ensures PartSum(a + b, symbols) == PartSum(a, symbols) + PartSum(b, symbols)
    decreases |b|
  {
    if b == [] {
      assert a + b == a;
    } else {
      var n := |b| - 1;
      assert (a + b)[..|a + b| - 1] == a + b[..n] && (a + b)[|a + b| - 1] == b[n];
      PartSumAppend(a, b[..n], symbols);
    }
  }

  /** `day03_1`. */
  function Part1Of(input: string): Result<nat> {
    var s :- SchematicOf(input);
    Ok(PartSum(s.partNumbers, s.symbols))
  }

  method Part1(input: string) returns (r: Result<nat>)
    ensures r == Part1Of(input)
  {
    var schematic := ParseSchematic(input);
    if schematic.Err? {
      return Err(schematic.msg);
    }
    var parts := schematic.value.partNumbers;
    var symbols := schematic.value.symbols;
    var sum := 0;
    for i := 0 to |parts|
      invariant sum == PartSum(parts[..i], symbols)
    {
      assert parts[..i + 1][..i] == parts[..i];
      var near := HasAdjacentSymbol(parts[i], symbols);
      if near {
        sum := sum + parts[i].value;
      }
    }
    assert parts[..|parts|] == parts;
    return Ok(sum);
  }

  // ---------------------------------------------------------------------------------------------
  // Part two: gear ratios

  /** The positions of the '*' symbols. */
  function Gears(symbols: map<Pos, char>): (gs: set<Pos>)
    ensures forall g :: g in gs <==> g in symbols && symbols[g] == '*'
  {
    set g | g in symbols && symbols[g] == '*'
  }

  /** The part numbers that list `g` among their adjacent cells, in order. */
  function GearParts(g: Pos, parts: seq<PartNumber>): (ps: seq<PartNumber>)
    ensures |ps| <= |parts|
  {
    if parts == [] then []
    else
      var init := GearParts(g, parts[..|parts| - 1]);
      var p := parts[|parts| - 1];
      if g in AdjacentCells(p) then init + [p] else init
  }

  /** The part numbers next to a gear are those of whose ring it is a cell. */
  lemma {:induction false} GearPartsIff(g: Pos, parts: seq<PartNumber>, q: PartNumber)
    ensures q in GearParts(g, parts) <==> q in parts && Neighbour(q, g)
  {
    if parts != [] {
      var n := |parts| - 1;
      GearPartsIff(g, parts[..n], q);
      AdjacentExactly(parts[n], g);
      assert parts == parts[..n] + [parts[n]];
    }
  }

  /** The ratio a gear adds: the product of its two part numbers, or nothing when it does not have
      exactly two. */
  function GearRatio(g: Pos, parts: seq<PartNumber>): nat {
    var ps := GearParts(g, parts);
    if |ps| == 2 then ps[0].value * ps[1].value else 0
  }

  /** The ratios of the gears `gs`, in any order. */
  ghost function RatioSum(gs: set<Pos>, parts: seq<PartNumber>): nat
    decreases |gs|
  {
    if gs == {} then 0
    else
      var g :| g in gs;
      GearRatio(g, parts) + RatioSum(gs - {g}, parts)
  }

  /** The sum does not depend on which gear is taken first. */
  lemma {:induction false} RatioSumRemove(gs: set<Pos>, parts: seq<PartNumber>, g: Pos)
    requires g in gs
    ensures RatioSum(gs, parts) == GearRatio(g, parts) + RatioSum(gs - {g}, parts)
    decreases |gs|
  {
    var h :| h in gs && RatioSum(gs, parts) == GearRatio(h, parts) + RatioSum(gs - {h}, parts);
    if h != g {
      RatioSumRemove(gs - {h}, parts, g);
      RatioSumRemove(gs - {g}, parts, h);
      assert gs - {h} - {g} == gs - {g} - {h};
    }
  }

  /** Three different gears add up their three ratios. */
  lemma RatioSumThree(a: Pos, b: Pos, c: Pos, parts: seq<PartNumber>)
    requires a != b && a != c && b != c
    ensures RatioSum({a, b, c}, parts) == GearRatio(a, parts) + GearRatio(b, parts) + GearRatio(c, parts)
  {
    RatioSumRemove({a, b, c}, parts, a);
    assert {a, b, c} - {a} == {b, c};
    RatioSumRemove({b, c}, parts, b);
    assert {b, c} - {b} == {c};
    RatioSumRemove({c}, parts, c);
    assert {c} - {c} == {};
  }

  /** The filter of `day03_2`: the part numbers whose listed cells contain the gear. */
  method GearPartsOf(g: Pos, parts: seq<PartNumber>) returns (ps: seq<PartNumber>)
    ensures ps == GearParts(g, parts)
  {
    ps := [];
    for i := 0 to |parts|
      invariant ps == GearParts(g, parts[..i])
    {
      assert parts[..i + 1][..i] == parts[..i];
      var cells := AdjacentIndices(parts[i]);
      if g in cells {
        ps := ps + [parts[i]];
      }
    }
    assert parts[..|parts|] == parts;
  }

  /** `day03_2`: the gears are visited in the hash map's order, which is left open here. */
  method Part2(input: string) returns (r: Result<nat>)
    ensures r.Ok? <==> SchematicOf(input).Ok?
    ensures r.Err? ==> r == Err(SchematicOf(input).msg)
    ensures r.Ok? ==> r.value == RatioSum(Gears(SchematicOf(input).value.symbols), SchematicOf(input).value.partNumbers)
  {
    var schematic := ParseSchematic(input);
    if schematic.Err? {
      return Err(schematic.msg);
    }
    var parts := schematic.value.partNumbers;
    var gears := Gears(schematic.value.symbols);
    var remaining := gears;
    var ratioSum := 0;
    while remaining != {}
      invariant remaining <= gears
      invariant ratioSum + RatioSum(remaining, parts) == RatioSum(gears, parts)
      decreases |remaining|
    {
      var g :| g in remaining;
      RatioSumRemove(remaining, parts, g);
      var ps := GearPartsOf(g, parts);
      if |ps| == 2 {
        ratioSum := ratioSum + ps[0].value * ps[1].value;
      }
      remaining := remaining - {g};
    }
    return Ok(ratioSum);
  }

  // ---------------------------------------------------------------------------------------------
  // The sample schematic

  /** The schematic of the ten-row sample, as its symbols and part numbers. */
  function SampleSchematic(): Schematic {
    Schematic(
      map[(3, 1) := '*', (6, 3) := '#', (3, 4) := '*', (5, 5) := '+', (3, 8) := '$', (5, 8) := '*'],
      [PartNumber((0, 0), 467, 3), PartNumber((5, 0), 114, 3), PartNumber((2, 2), 35, 2),
       PartNumber((6, 2), 633, 3), PartNumber((0, 4), 617, 3), PartNumber((7, 5), 58, 2),
       PartNumber((2, 6), 592, 3), PartNumber((6, 7), 755, 3), PartNumber((1, 9), 664, 3),
       PartNumber((5, 9), 598, 3)])
  }

  /** 114 and 58 are the only part numbers with no symbol around them. */
  lemma SampleNeighbours()
    ensures var s := SampleSchematic();
      forall i :: 0 <= i < 10 ==> (NextToSymbol(s.partNumbers[i], s.symbols) <==> i != 1 && i != 5)
  {
    var s := SampleSchematic();
    forall i | 0 <= i < 10
      ensures NextToSymbol(s.partNumbers[i], s.symbols) <==> i != 1 && i != 5
    {
      NextToSymbolIff(s.partNumbers[i], s.symbols);
      if i == 0 {
        assert Neighbour(s.partNumbers[i], (3, 1));
      } else if i == 2 {
        assert Neighbour(s.partNumbers[i], (3, 1));
      } else if i == 3 {
        assert Neighbour(s.partNumbers[i], (6, 3));
      } else if i == 4 {
        assert Neighbour(s.partNumbers[i], (3, 4));
      } else if i == 6 {
        assert Neighbour(s.partNumbers[i], (5, 5));
      } else if i == 7 {
        assert Neighbour(s.partNumbers[i], (5, 8));
      } else if i == 8 {
        assert Neighbour(s.partNumbers[i], (3, 8));
      } else if i == 9 {
        assert Neighbour(s.partNumbers[i], (5, 8));
      }
    }
  }

  /** The sum, given the value each part number adds. */
  lemma {:induction false} PartSumOf(parts: seq<PartNumber>, symbols: map<Pos, char>, vs: seq<nat>)
    requires |vs| == |parts|
    requires forall i :: 0 <= i < |parts| ==> vs[i] == if NextToSymbol(parts[i], symbols) then parts[i].value else 0
    ensures PartSum(parts, symbols) == Total(vs)
  {
    if parts != [] {
      var n := |parts| - 1;
      assert forall i :: 0 <= i < n ==> parts[..n][i] == parts[i] && vs[..n][i] == vs[i];
      PartSumOf(parts[..n], symbols, vs[..n]);
    }
  }

  function SampleAdded(): seq<nat> {
    [467, 0, 35, 633, 617, 0, 592, 755, 664, 598]
  }

  lemma SampleAddedTotal()
    ensures Total(SampleAdded()) == 4361
  {
    var vs := SampleAdded();
    forall k | 0 < k <= 10
      ensures Total(vs[..k]) == Total(vs[..k - 1]) + vs[k - 1]
    {
      assert vs[..k][..k - 1] == vs[..k - 1];
    }
    assert vs[..0] == [] && vs[..10] == vs;
    assert Total(vs[..1]) == 467;
    assert Total(vs[..2]) == 467;
    assert Total(vs[..3]) == 502;
    assert Total(vs[..4]) == 1135;
    assert Total(vs[..5]) == 1752;
    assert Total(vs[..6]) == 1752;
    assert Total(vs[..7]) == 2344;
    assert Total(vs[..8]) == 3099;
    assert Total(vs[..9]) == 3763;
  }

  /** Part one of the sample is 4361. */
  lemma SamplePart1()
    ensures PartSum(SampleSchematic().partNumbers, SampleSchematic().symbols) == 4361
  {
    SampleNeighbours();
    PartSumOf(SampleSchematic().partNumbers, SampleSchematic().symbols, SampleAdded());
    SampleAddedTotal();
  }

  lemma GearPartsStep(g: Pos, parts: seq<PartNumber>, k: nat)
    requires 0 < k <= |parts|
    ensures GearParts(g, parts[..k]) == GearParts(g, parts[..k - 1]) + if Neighbour(parts[k - 1], g) then [parts[k - 1]] else []
  {
    assert parts[..k][..k - 1] == parts[..k - 1];
    AdjacentExactly(parts[k - 1], g);
  }

  /** The part numbers among the first `n` whose flag is set, in order. */
  function Selected(parts: seq<PartNumber>, near: seq<bool>, n: nat): seq<PartNumber>
    requires n <= |parts| == |near|
  {
    if n == 0 then [] else Selected(parts, near, n - 1) + if near[n - 1] then [parts[n - 1]] else []
  }

  /** The part numbers of a gear, given which part numbers it is a neighbour of. */
  lemma GearPartsBy(g: Pos, parts: seq<PartNumber>, near: seq<bool>)
    requires |near| == |parts| && forall i :: 0 <= i < |parts| ==> near[i] == Neighbour(parts[i], g)
    ensures GearParts(g, parts) == Selected(parts, near, |parts|)
  {
    GearPartsBelow(g, parts, near, |parts|);
    assert parts[..|parts|] == parts;
  }

  lemma {:induction false} GearPartsBelow(g: Pos, parts: seq<PartNumber>, near: seq<bool>, n: nat)
    requires n <= |near| == |parts| && forall i :: 0 <= i < |parts| ==> near[i] == Neighbour(parts[i], g)
    ensures GearParts(g, parts[..n]) == Selected(parts, near, n)
  {
    if n > 0 {
      GearPartsBelow(g, parts, near, n - 1);
      AdjacentExactly(parts[n - 1], g);
      assert parts[..n][..n - 1] == parts[..n - 1];
    }
  }

  /** Flags that are all unset from `n` to `m` select nothing more. */
  lemma {:induction false} SelectedSkip(parts: seq<PartNumber>, near: seq<bool>, n: nat, m: nat)
    requires n <= m <= |parts| == |near|
    requires forall k :: n <= k < m ==> !near[k]
    ensures Selected(parts, near, m) == Selected(parts, near, n)
    decreases m
  {
    if n < m {
      SelectedSkip(parts, near, n, m - 1);
    }
  }

  /** Exactly one flag set: its part number alone is selected. */
  lemma SelectedOne(parts: seq<PartNumber>, near: seq<bool>, i: nat)
    requires i < |parts| == |near| && near[i]
    requires forall k :: 0 <= k < |parts| && k != i ==> !near[k]
    ensures Selected(parts, near, |parts|) == [parts[i]]
  {
    SelectedSkip(parts, near, 0, i);
    SelectedSkip(parts, near, i + 1, |parts|);
  }

  /** Exactly two flags set: their part numbers are selected in order. */
  lemma SelectedTwo(parts: seq<PartNumber>, near: seq<bool>, i: nat, j: nat)
    requires i < j < |parts| == |near| && near[i] && near[j]
    requires forall k :: 0 <= k < |parts| && k != i && k != j ==> !near[k]
    ensures Selected(parts, near, |parts|) == [parts[i], parts[j]]
  {
    SelectedSkip(parts, near, 0, i);
    SelectedSkip(parts, near, i + 1, j);
    SelectedSkip(parts, near, j + 1, |parts|);
  }

  lemma SampleGearFirst()
    ensures var ps := SampleSchematic().partNumbers; GearParts((3, 1), ps) == [ps[0], ps[2]]
  {
    var ps := SampleSchematic().partNumbers;
    var near := [true, false, true, false, false, false, false, false, false, false];
    forall i | 0 <= i < 10
      ensures near[i] == Neighbour(ps[i], (3, 1))
    {
      if i == 0 {
        assert Neighbour(ps[0], (3, 1));
      } else if i == 2 {
        assert Neighbour(ps[2], (3, 1));
      }
    }
    assert |ps| == 10 && forall k :: 0 <= k < 10 && k != 0 && k != 2 ==> !near[k];
    GearPartsBy((3, 1), ps, near);
    SelectedTwo(ps, near, 0, 2);
  }

  lemma SampleGearSecond()
    ensures var ps := SampleSchematic().partNumbers; GearParts((3, 4), ps) == [ps[4]]
  {
    var ps := SampleSchematic().partNumbers;
    var near := [false, false, false, false, true, false, false, false, false, false];
    forall i | 0 <= i < 10
      ensures near[i] == Neighbour(ps[i], (3, 4))
    {
      if i == 4 {
        assert Neighbour(ps[4], (3, 4));
      }
    }
    assert |ps| == 10 && forall k :: 0 <= k < 10 && k != 4 ==> !near[k];
    GearPartsBy((3, 4), ps, near);
    SelectedOne(ps, near, 4);
  }

  lemma SampleGearThird()
    ensures var ps := SampleSchematic().partNumbers; GearParts((5, 8), ps) == [ps[7], ps[9]]
  {
    var ps := SampleSchematic().partNumbers;
    var near := [false, false, false, false, false, false, false, true, false, true];
    forall i | 0 <= i < 10
      ensures near[i] == Neighbour(ps[i], (5, 8))
    {
      if i == 7 {
        assert Neighbour(ps[7], (5, 8));
      } else if i == 9 {
        assert Neighbour(ps[9], (5, 8));
      }
    }
    assert |ps| == 10 && forall k :: 0 <= k < 10 && k != 7 && k != 9 ==> !near[k];
    GearPartsBy((5, 8), ps, near);
    SelectedTwo(ps, near, 7, 9);
  }

  /** Part two of the sample is 467835: the gears at (3, 1) and (5, 8) have two part numbers each,
      and the '*' at (3, 4) only one. */
  lemma SamplePart2()
    ensures RatioSum(Gears(SampleSchematic().symbols), SampleSchematic().partNumbers) == 467835
  {
    var s := SampleSchematic();
    assert Gears(s.symbols) == {(3, 1), (3, 4), (5, 8)};
    SampleGearFirst();
    SampleGearSecond();
    SampleGearThird();
    RatioSumThree((3, 1), (3, 4), (5, 8), s.partNumbers);
  }

  lemma SampleFirstRowRuns()
    ensures RunsFrom("467..114..", 0) == [Run(0, "467"), Run(5, "114")]
  {
    var row := "467..114..";
    RunClosed(row, 0, 3);
    assert RunsFrom(row, 3) == RunsFrom(row, 5);
    RunClosed(row, 5, 8);
    assert RunsFrom(row, 8) == [];
    assert row[0..3] == "467" && row[5..8] == "114";
  }

  lemma SampleFirstRowValues()
    ensures NewPartNumber(0, 0, "467") == Ok(PartNumber((0, 0), 467, 3))
    ensures NewPartNumber(5, 0, "114") == Ok(PartNumber((5, 0), 114, 3))
  {
    assert "467"[..2] == "46" && "46"[..1] == "4" && "4"[..0] == [];
    assert "114"[..2] == "11" && "11"[..1] == "1" && "1"[..0] == [];
    assert DigitsValue("467") == 467 && DigitsValue("114") == 114;
  }

  /** The first row of the sample holds the part numbers 467 and 114. */
  lemma SampleFirstRow()
    ensures RowParts("467..114..", 0) == Ok([PartNumber((0, 0), 467, 3), PartNumber((5, 0), 114, 3)])
  {
    SampleFirstRowRuns();
    SampleFirstRowValues();
    var a, b := Run(0, "467"), Run(5, "114");
    var f := PartOfRun(0);
    assert f(a) == NewPartNumber(0, 0, "467") && f(b) == NewPartNumber(5, 0, "114");
    var none: seq<Run> := [];
    assert CollectAll(none, f) == Ok([]);
    CollectAllSnoc(none, a, f);
    assert none + [a] == [a];
    var p1, p2 := PartNumber((0, 0), 467, 3), PartNumber((5, 0), 114, 3);
    assert [] + [p1] == [p1];
    assert CollectAll([a], f) == Ok([p1]);
    CollectAllSnoc([a], b, f);
    assert [a] + [b] == [a, b] && [p1] + [p2] == [p1, p2];
    assert CollectAll([a, b], f) == Ok([p1, p2]);
  }
}
