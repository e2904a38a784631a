/** 2023 day 11: cosmic expansion. The image is a grid of empty space and galaxies; every row and
    every column without a galaxy is doubled, and the answer is the sum of the Manhattan distances
    between all pairs of galaxies of the expanded image. */
module Y2023Day11 {
  import opened Outcomes
  import opened Text
  import opened Positions

  /** `GalaxyMap`: rows of cells, `true` for a galaxy. */
  type Grid = seq<seq<bool>>

  /** The panic of an index past the end of a `Vec` (`values[0]`, `row[i]`, `get`). */
  const INDEX_PANIC: string := "panic: index out of bounds"

  /** The panic of `Vec::insert` at an index past the end. */
  const INSERT_PANIC: string := "panic: insertion index should be <= len"

  // ---------------------------------------------------------------------------------------------
  // Parsing

  function UnrecognizedSymbol(c: char): string {
    "panic: Unrecognized symbol " + [c]
  }

  /** One character of the image: `.` is empty space, `#` a galaxy, anything else panics. */
  function ParseCell(c: char): (r: Result<bool>)
    ensures r.Ok? <==> c == '.' || c == '#'
    ensures r.Ok? ==> (r.value <==> c == '#')
    ensures r.Err? ==> r.msg == UnrecognizedSymbol(c)
  {
    match c
    case '.' => Ok(false)
    case '#' => Ok(true)
    case _ => Err(UnrecognizedSymbol(c))
  }

  function ParseRow(line: string): Result<seq<bool>> {
    CollectAll(line, ParseCell)
  }

  /** The cells of `parse` before any expansion: one row per line. */
  function Cells(input: string): (r: Result<Grid>)
    ensures r.Ok? ==> |r.value| == |Lines(input)|
  {
    CollectAll(Lines(input), ParseRow)
  }

  /** A cell as `print` shows it. */
  function CellChar(b: bool): char {
    if b then '#' else '.'
  }

  function RowText(row: seq<bool>): (s: string)
    ensures |s| == |row| && forall i :: 0 <= i < |row| ==> s[i] == CellChar(row[i])
  {
    seq(|row|, i requires 0 <= i < |row| => CellChar(row[i]))
  }

  /** The image as `print` shows it: its rows, one per line. */
  function GridText(g: Grid): string {
    Join(seq(|g|, i requires 0 <= i < |g| => RowText(g[i])), "\n")
  }

  /** An image without empty rows parses back to itself. */
  lemma CellsRoundTrip(g: Grid)
    requires forall i :: 0 <= i < |g| ==> g[i] != []
    ensures Cells(GridText(g)) == Ok(g)
  {
    var lines := seq(|g|, i requires 0 <= i < |g| => RowText(g[i]));
    forall i | 0 <= i < |g|
      ensures lines[i] != [] && '\n' !in lines[i] && ParseRow(lines[i]) == Ok(g[i])
    {
      var r := CollectAll(lines[i], ParseCell);
      assert r.Ok? && r.value == g[i];
    }
    LinesOfJoin(lines);
    var r := CollectAll(lines, ParseRow);
    assert r.Ok? && r.value == g;
  }

  // ---------------------------------------------------------------------------------------------
  // Empty rows and columns

  predicate Blank(row: seq<bool>) {
    forall i :: 0 <= i < |row| ==> !row[i]
  }

  predicate Increasing(idx: seq<nat>) {
    forall i, j :: 0 <= i < j < |idx| ==> idx[i] < idx[j]
  }

  /** `empty_rows`: the indices of the rows without a galaxy, in order. */
  function EmptyRows(g: Grid): (rows: seq<nat>)
    ensures Increasing(rows) && forall k :: 0 <= k < |rows| ==> rows[k] < |g|
    ensures forall i :: i in rows <==> 0 <= i < |g| && Blank(g[i])
  {
    if g == [] then []
    else
      var front := g[..|g| - 1];
      assert forall i :: 0 <= i < |front| ==> front[i] == g[i];
      EmptyRows(front) + (if Blank(g[|g| - 1]) then [|g| - 1] else [])
  }

  /** Column `i` is in every row from row `k` on and holds no galaxy there. */
  predicate ColumnBlankFrom(g: Grid, i: nat, k: nat) {
    forall y :: k <= y < |g| ==> i < |g[y]| && !g[y][i]
  }

  /** Column `i` is in every row and holds no galaxy. */
  predicate ColumnBlank(g: Grid, i: nat) {
    ColumnBlankFrom(g, i, 0)
  }

  /** `values.iter().map(|row| row[i]).all(|is_galaxy| !is_galaxy)` from row `k` on: the first galaxy
      stops the scan with `false`, a row too short to have column `i` before it panics. */
  function ColumnFrom(g: Grid, i: nat, k: nat): (r: Result<bool>)
    requires k <= |g|
    ensures r.Err? ==> r.msg == INDEX_PANIC
    decreases |g| - k
  {
    if k == |g| then Ok(true)
    else if |g[k]| <= i then Err(INDEX_PANIC)
    else if g[k][i] then Ok(false)
    else ColumnFrom(g, i, k + 1)
  }

  /** The scan finds the column empty exactly when it is. */
  lemma {:induction false} ColumnFromBlank(g: Grid, i: nat, k: nat)
    requires k <= |g|
    ensures ColumnFrom(g, i, k) == Ok(true) <==> ColumnBlankFrom(g, i, k)
    decreases |g| - k
  {
    if k < |g| && i < |g[k]| && !g[k][i] {
      ColumnFromBlank(g, i, k + 1);
    }
  }

  /** The scan panics exactly when a row too short comes before any galaxy in the column. */
  lemma {:induction false} ColumnFromFails(g: Grid, i: nat, k: nat)
    requires k <= |g|
    ensures ColumnFrom(g, i, k).Err? <==>
      exists y :: k <= y < |g| && |g[y]| <= i && forall j :: k <= j < y ==> i < |g[j]| && !g[j][i]
    decreases |g| - k
  {
    if k < |g| && i < |g[k]| && !g[k][i] {
      ColumnFromFails(g, i, k + 1);
      if ColumnFrom(g, i, k).Err? {
        var y :| k + 1 <= y < |g| && |g[y]| <= i && forall j :: k + 1 <= j < y ==> i < |g[j]| && !g[j][i];
        assert forall j :: k <= j < y ==> i < |g[j]| && !g[j][i];
      }
    }
  }

  /** The check of column `i` over all rows. */
  function ColumnEmpty(g: Grid, i: nat): (r: Result<bool>)
    ensures r.Err? ==> r.msg == INDEX_PANIC
  {
    ColumnFrom(g, i, 0)
  }

  /** The empty columns among the first `n`, in order, or the panic of the first scan that panics. */
  function EmptyColsUpTo(g: Grid, n: nat): (r: Result<seq<nat>>)
    ensures r.Err? <==> exists i :: 0 <= i < n && ColumnEmpty(g, i).Err?
    ensures r.Err? ==> r.msg == INDEX_PANIC
  {
    if n == 0 then Ok([])
    else
      var prev := EmptyColsUpTo(g, n - 1);
      if prev.Err? then prev
      else
        match ColumnEmpty(g, n - 1)
        case Err(msg) => Err(msg)
        case Ok(blank) => Ok(prev.value + if blank then [n - 1] else [])
  }

  /** The empty columns are listed in order, and they are exactly the columns in every row without
      a galaxy. */
  lemma {:induction false} EmptyColsUpToSpec(g: Grid, n: nat)
    requires EmptyColsUpTo(g, n).Ok?
    ensures var cols := EmptyColsUpTo(g, n).value;
      Increasing(cols) && (forall k :: 0 <= k < |cols| ==> cols[k] < n)
      && forall i :: i in cols <==> 0 <= i < n && ColumnBlank(g, i)
  {
    if n > 0 {
      EmptyColsUpToSpec(g, n - 1);
      var prev := EmptyColsUpTo(g, n - 1).value;
      ColumnFromBlank(g, n - 1, 0);
      assert EmptyColsUpTo(g, n).value == prev + if ColumnBlank(g, n - 1) then [n - 1] else [];
    }
  }

  /** `empty_cols`: the columns of the first row that are empty in every row; `values[0]` panics
      on an image without rows. */
  function EmptyCols(g: Grid): (r: Result<seq<nat>>)
    ensures r.Ok? ==> g != []
    ensures r.Err? ==> r.msg == INDEX_PANIC
  {
    if g == [] then Err(INDEX_PANIC) else EmptyColsUpTo(g, |g[0]|)
  }

  /** In an image whose rows all have the width of the first, every column scan succeeds. */
  lemma EmptyColsRectangular(g: Grid)
    requires Rectangular(g)
    ensures EmptyCols(g).Ok?
    ensures forall i :: i in EmptyCols(g).value <==> 0 <= i < |g[0]| && ColumnBlank(g, i)
    ensures Increasing(EmptyCols(g).value)
  {
    forall i | 0 <= i < |g[0]|
      ensures ColumnEmpty(g, i).Ok?
    {
      ColumnFromFails(g, i, 0);
    }
    EmptyColsUpToSpec(g, |g[0]|);
  }

  /** At least one row, and every row as wide as the first. */
  predicate Rectangular(g: Grid) {
    g != [] && forall y :: 0 <= y < |g| ==> |g[y]| == |g[0]|
  }

  // ---------------------------------------------------------------------------------------------
  // Insertion and duplication

  /** `Vec::insert`: `x` placed before the element at `i`. */
  function InsertAt<T>(s: seq<T>, i: nat, x: T): (r: seq<T>)
    requires i <= |s|
    ensures |r| == |s| + 1 && r[i] == x
    ensures forall k :: 0 <= k < i ==> r[k] == s[k]
    ensures forall k :: i < k < |r| ==> r[k] == s[k - 1]
  {
    s[..i] + [x] + s[i..]
  }

  /** `x` inserted once for each index of `idx`, in order, the k-th at `idx[k] + k`: the loops of
      `parse`, whose `offset` counts the insertions already made. */
  function InsertEach<T>(s: seq<T>, idx: seq<nat>, x: T): (r: seq<T>)
    requires forall k :: 0 <= k < |idx| ==> idx[k] <= |s|
    ensures |r| == |s| + |idx|
  {
    if idx == [] then s
    else
      var n := |idx| - 1;
      InsertAt(InsertEach(s, idx[..n], x), idx[n] + n, x)
  }

  /** The first `n` elements of `s`, each one whose index is in `idx` twice. */
  function DupUpTo<T>(s: seq<T>, idx: seq<nat>, n: nat): seq<T>
    requires n <= |s|
  {
    if n == 0 then [] else DupUpTo(s, idx, n - 1) + (if n - 1 in idx then [s[n - 1], s[n - 1]] else [s[n - 1]])
  }

  /** `s` with each element whose index is in `idx` doubled. */
  function Dup<T>(s: seq<T>, idx: seq<nat>): seq<T> {
    DupUpTo(s, idx, |s|)
  }

  /** Without marks between `m` and `n`, those elements are copied once. */
  lemma {:induction false} DupUnmarked<T>(s: seq<T>, idx: seq<nat>, m: nat, n: nat)
    requires m <= n <= |s|
    requires forall k :: 0 <= k < |idx| ==> !(m <= idx[k] < n)
    ensures DupUpTo(s, idx, n) == DupUpTo(s, idx, m) + s[m..n]
    decreases n
  {
    if n > m {
      DupUnmarked(s, idx, m, n - 1);
      assert n - 1 !in idx;
      assert s[m..n - 1] + [s[n - 1]] == s[m..n];
    }
  }

  /** A mark at or past `n` does not change the first `n` elements. */
  lemma {:induction false} DupIgnoresLater<T>(s: seq<T>, idx: seq<nat>, e: nat, n: nat)
    requires n <= e && n <= |s|
    ensures DupUpTo(s, idx + [e], n) == DupUpTo(s, idx, n)
    decreases n
  {
    if n > 0 {
      DupIgnoresLater(s, idx, e, n - 1);
      assert (n - 1 in idx + [e]) == (n - 1 in idx);
    }
  }

  /** One more mark, not yet among the marks, adds one element when it is below `n`. */
  lemma {:induction false} DupOneMoreLength<T>(s: seq<T>, idx: seq<nat>, e: nat, n: nat)
    requires n <= |s| && e !in idx
    ensures |DupUpTo(s, idx + [e], n)| == |DupUpTo(s, idx, n)| + (if e < n then 1 else 0)
    decreases n
  {
    if n > 0 {
      DupOneMoreLength(s, idx, e, n - 1);
      assert (n - 1 in idx + [e]) == (n - 1 in idx || n - 1 == e);
    }
  }

  /** Increasing marks below `n` add one element each. */
  lemma {:induction false} DupLength<T>(s: seq<T>, idx: seq<nat>, n: nat)
    requires n <= |s| && Increasing(idx) && forall k :: 0 <= k < |idx| ==> idx[k] < n
    ensures |DupUpTo(s, idx, n)| == n + |idx|
    decreases |idx|
  {
    if idx == [] {
      DupUnmarked(s, idx, 0, n);
    } else {
      var front := idx[..|idx| - 1];
      var e := idx[|idx| - 1];
      assert idx == front + [e];
      DupLength(s, front, n);
      assert e !in front;
      DupOneMoreLength(s, front, e, n);
    }
  }

  /** Inserting a copy of the marked elements before each of them, the k-th mark at `idx[k] + k`,
      doubles exactly the marked elements. */
  lemma {:induction false} InsertEachDup<T>(s: seq<T>, idx: seq<nat>, x: T)
    requires Increasing(idx) && forall k :: 0 <= k < |idx| ==> idx[k] < |s| && s[idx[k]] == x
    ensures InsertEach(s, idx, x) == Dup(s, idx)
    decreases |idx|
  {
    if idx == [] {
      DupUnmarked(s, idx, 0, |s|);
    } else {
      var n := |idx| - 1;
      var front, e := idx[..n], idx[n];
      assert idx == front + [e];
      InsertEachDup(s, front, x);
      DupUnmarked(s, front, e, |s|);
      DupLength(s, front, e);
      InsertLastMark(s, front, e, x);
      InsertAtJoin(DupUpTo(s, front, e), s[e..], x);
    }
  }

  /** Adding a mark past all earlier marks doubles the element at it. */
  lemma InsertLastMark<T>(s: seq<T>, front: seq<nat>, e: nat, x: T)
    requires forall k :: 0 <= k < |front| ==> front[k] < e
    requires e < |s| && s[e] == x
    ensures Dup(s, front + [e]) == DupUpTo(s, front, e) + [x] + s[e..]
  {
    var before, rest := DupUpTo(s, front, e), s[e + 1..|s|];
    DupLastMark(s, front, e);
    assert s[e..] == [x] + rest;
    assert (before + [x, x]) + rest == (before + [x]) + ([x] + rest);
  }

  lemma DupLastMark<T>(s: seq<T>, front: seq<nat>, e: nat)
    requires forall k :: 0 <= k < |front| ==> front[k] < e
    requires e < |s|
    ensures Dup(s, front + [e]) == (DupUpTo(s, front, e) + [s[e], s[e]]) + s[e + 1..|s|]
  {
    var idx := front + [e];
    DupIgnoresLater(s, front, e, e);
    assert e in idx;
    DupMarked(s, idx, e);
    DupUnmarked(s, idx, e + 1, |s|);
  }

  lemma InsertAtJoin<T>(a: seq<T>, b: seq<T>, x: T)
    ensures InsertAt(a + b, |a|, x) == a + [x] + b
  {
    assert (a + b)[..|a|] == a && (a + b)[|a|..] == b;
  }

  lemma DupMarked<T>(s: seq<T>, idx: seq<nat>, e: nat)
    requires e < |s| && e in idx
    ensures DupUpTo(s, idx, e + 1) == DupUpTo(s, idx, e) + [s[e], s[e]]
  {
  }

  /** Every element of a duplication is an element of the original. */
  lemma {:induction false} DupElements<T>(s: seq<T>, idx: seq<nat>, n: nat)
    requires n <= |s|
    ensures forall y :: y in DupUpTo(s, idx, n) ==> y in s
    decreases n
  {
    if n > 0 {
      DupElements(s, idx, n - 1);
    }
  }

  /** The sum of `w` over the elements of `s`. */
  function Weight<T>(s: seq<T>, w: T -> nat): nat {
    if s == [] then 0 else Weight(s[..|s| - 1], w) + w(s[|s| - 1])
  }

  lemma {:induction false} WeightAppend<T>(a: seq<T>, b: seq<T>, w: T -> nat)
    ensures Weight(a + b, w) == Weight(a, w) + Weight(b, w)
    decreases |b|
  {
    if b == [] {
      assert a + b == a;
    } else {
      assert (a + b)[..|a + b| - 1] == a + b[..|b| - 1];
      WeightAppend(a, b[..|b| - 1], w);
    }
  }

  /** Elements of weight zero are not counted however often they are doubled. */
  lemma {:induction false} DupWeight<T>(s: seq<T>, idx: seq<nat>, n: nat, w: T -> nat)
    requires n <= |s| && forall i :: 0 <= i < |s| && i in idx ==> w(s[i]) == 0
    ensures Weight(DupUpTo(s, idx, n), w) == Weight(s[..n], w)
    decreases n
  {
    if n > 0 {
      DupWeight(s, idx, n - 1, w);
      var extra := if n - 1 in idx then [s[n - 1], s[n - 1]] else [s[n - 1]];
      WeightAppend(DupUpTo(s, idx, n - 1), extra, w);
      assert s[..n][..n - 1] == s[..n - 1];
      var x := s[n - 1];
      assert Weight(s[..n], w) == Weight(s[..n - 1], w) + w(x);
      assert DupUpTo(s, idx, n) == DupUpTo(s, idx, n - 1) + extra;
      assert Weight([x], w) == w(x) by {
        assert [x][..0] == [];
      }
      if n - 1 in idx {
        assert w(x) == 0;
        assert extra[..1] == [x];
        assert Weight(extra, w) == 0;
      }
    }
  }

  /** Sequences of equal weights element by element have equal weights. */
  lemma {:induction false} WeightPointwise<S, T>(a: seq<S>, b: seq<T>, wa: S -> nat, wb: T -> nat)
    requires |a| == |b| && forall i :: 0 <= i < |a| ==> wa(a[i]) == wb(b[i])
    ensures Weight(a, wa) == Weight(b, wb)
    decreases |a|
  {
    if a != [] {
      WeightPointwise(a[..|a| - 1], b[..|b| - 1], wa, wb);
    }
  }

  function CellWeight(cell: bool): nat {
    if cell then 1 else 0
  }

  /** The galaxies of a row. */
  function RowTotal(row: seq<bool>): nat {
    Weight(row, CellWeight)
  }

  /** The galaxies of an image. */
  function GalaxyTotal(g: Grid): nat {
    Weight(g, RowTotal)
  }

  lemma {:induction false} BlankRowTotal(row: seq<bool>)
    requires Blank(row)
    ensures RowTotal(row) == 0
    decreases |row|
  {
    if row != [] {
      BlankRowTotal(row[..|row| - 1]);
    }
  }

  // ---------------------------------------------------------------------------------------------
  // Expansion

  /** A row of `w` empty cells: `vec![false; w]`. */
  function EmptyRow(w: nat): (row: seq<bool>)
    ensures |row| == w && Blank(row)
  {
    seq(w, _ => false)
  }

  /** Some row is shorter than some index of `cols`, where `Vec::insert` panics. */
  predicate TooShort(h: Grid, cols: seq<nat>) {
    exists y, k :: 0 <= y < |h| && 0 <= k < |cols| && |h[y]| < cols[k]
  }

  /** The column stage of `parse`: `false` inserted into every row once for each index of `cols`. */
  function InsertCols(h: Grid, cols: seq<nat>): (r: Result<Grid>)
    ensures r.Err? <==> TooShort(h, cols)
    ensures r.Ok? ==> |r.value| == |h| && forall y :: 0 <= y < |h| ==> |r.value[y]| == |h[y]| + |cols|
  {
    if TooShort(h, cols) then Err(INSERT_PANIC)
    else Ok(seq(|h|, y requires 0 <= y < |h| => InsertEach(h[y], cols, false)))
  }

  /** The expansion of `parse` with inserted rows `w` cells wide: the empty rows and columns are found
      first (the column scan may panic), then a row is inserted before each empty row and a column
      before each empty column. */
  function ExpandWith(g: Grid, w: nat): (r: Result<Grid>)
    ensures EmptyCols(g).Err? ==> r == Err(INDEX_PANIC)
    ensures r.Ok? ==> |r.value| == |g| + |EmptyRows(g)|
  {
    var cols :- EmptyCols(g);
    InsertCols(InsertEach(g, EmptyRows(g), EmptyRow(w)), cols)
  }

  /** `parse` as written: the inserted rows are as wide as the image is tall (`vec![false; size]`). */
  function ExpandAsWritten(g: Grid): (r: Result<Grid>)
    ensures g == [] ==> r == Err(INDEX_PANIC)
    ensures g != [] && |g[0]| == |g| ==> r == Expand(g)
    ensures r.Ok? ==> |r.value| == |g| + |EmptyRows(g)|
  {
    ExpandWith(g, |g|)
  }

  /** `parse` with the inserted rows as wide as the first row. */
  function Expand(g: Grid): (r: Result<Grid>)
    ensures g == [] ==> r == Err(INDEX_PANIC)
    ensures r.Ok? ==> |r.value| == |g| + |EmptyRows(g)|
  {
    if g == [] then Err(INDEX_PANIC) else ExpandWith(g, |g[0]|)
  }

  /** `GalaxyMap::parse`: the cells of the text, expanded as written. */
  function GalaxyMapOf(input: string): (r: Result<Grid>)
    ensures Cells(input).Err? ==> r == Err(Cells(input).msg)
    ensures r.Ok? ==> Cells(input).Ok? && |r.value| == |Cells(input).value| + |EmptyRows(Cells(input).value)|
  {
    var g :- Cells(input);
    ExpandAsWritten(g)
  }

  /** The empty rows of an image are the row of empty cells that `parse` inserts. */
  lemma RowsStage(g: Grid)
    requires Rectangular(g)
    ensures InsertEach(g, EmptyRows(g), EmptyRow(|g[0]|)) == Dup(g, EmptyRows(g))
  {
    var rows, fill := EmptyRows(g), EmptyRow(|g[0]|);
    forall k | 0 <= k < |rows|
      ensures g[rows[k]] == fill
    {
      assert rows[k] in rows;
      assert forall i :: 0 <= i < |fill| ==> g[rows[k]][i] == fill[i];
    }
    InsertEachDup(g, rows, fill);
  }

  /** Rows `w` wide whose cells at the indices of `cols` are empty get those cells doubled. */
  lemma ColumnsStage(h: Grid, cols: seq<nat>, w: nat)
    requires Increasing(cols) && forall k :: 0 <= k < |cols| ==> cols[k] < w
    requires forall y :: 0 <= y < |h| ==> |h[y]| == w
    requires forall y, k :: 0 <= y < |h| && 0 <= k < |cols| ==> !h[y][cols[k]]
    ensures InsertCols(h, cols) == Ok(seq(|h|, y requires 0 <= y < |h| => Dup(h[y], cols)))
  {
    forall y | 0 <= y < |h|
      ensures InsertEach(h[y], cols, false) == Dup(h[y], cols)
    {
      InsertEachDup(h[y], cols, false);
    }
    assert !TooShort(h, cols);
    var inserted := seq(|h|, y requires 0 <= y < |h| => InsertEach(h[y], cols, false));
    assert inserted == seq(|h|, y requires 0 <= y < |h| => Dup(h[y], cols));
  }

  /** The rows of the image after its empty rows are doubled, which are rows of the image. */
  lemma DoubledRows(g: Grid)
    requires Rectangular(g)
    ensures var h := Dup(g, EmptyRows(g));
      forall y :: 0 <= y < |h| ==> exists j :: 0 <= j < |g| && h[y] == g[j]
  {
    var h := Dup(g, EmptyRows(g));
    DupElements(g, EmptyRows(g), |g|);
    forall y | 0 <= y < |h|
      ensures exists j :: 0 <= j < |g| && h[y] == g[j]
    {
      assert h[y] in g;
    }
  }

  /** The expansion of a rectangular image doubles every empty row and then every empty column. */
  lemma ExpandDuplicates(g: Grid)
    requires Rectangular(g)
    ensures EmptyCols(g).Ok?
    ensures var h := Dup(g, EmptyRows(g));
      Expand(g) == Ok(seq(|h|, y requires 0 <= y < |h| => Dup(h[y], EmptyCols(g).value)))
  {
    var h := DoubledShape(g);
    ColumnsStage(h, EmptyCols(g).value, |g[0]|);
  }

  /** The image with its empty rows doubled keeps its width, and the empty columns of the image are
      empty in each of its rows. */
  lemma DoubledShape(g: Grid) returns (h: Grid)
    requires Rectangular(g)
    ensures EmptyCols(g).Ok? && Increasing(EmptyCols(g).value)
    ensures h == Dup(g, EmptyRows(g)) && |h| == |g| + |EmptyRows(g)|
    ensures InsertEach(g, EmptyRows(g), EmptyRow(|g[0]|)) == h
    ensures var cols := EmptyCols(g).value;
      (forall k :: 0 <= k < |cols| ==> cols[k] < |g[0]|)
      && (forall y :: 0 <= y < |h| ==> |h[y]| == |g[0]|)
      && forall y, k :: 0 <= y < |h| && 0 <= k < |cols| ==> !h[y][cols[k]]
  {
    EmptyColsRectangular(g);
    var cols, w := EmptyCols(g).value, |g[0]|;
    RowsStage(g);
    DoubledRows(g);
    DupLength(g, EmptyRows(g), |g|);
    h := Dup(g, EmptyRows(g));
    forall k | 0 <= k < |cols|
      ensures cols[k] < w && ColumnBlank(g, cols[k])
    {
      assert cols[k] in cols;
    }
    forall y | 0 <= y < |h|
      ensures |h[y]| == w && forall k :: 0 <= k < |cols| ==> !h[y][cols[k]]
    {
      var j :| 0 <= j < |g| && h[y] == g[j];
    }
  }

  /** A row whose cells at the indices of `cols` are empty keeps its galaxies when they are doubled. */
  lemma DupRowTotal(row: seq<bool>, cols: seq<nat>)
    requires Increasing(cols) && forall k :: 0 <= k < |cols| ==> cols[k] < |row| && !row[cols[k]]
    ensures |Dup(row, cols)| == |row| + |cols| && RowTotal(Dup(row, cols)) == RowTotal(row)
  {
    DupLength(row, cols, |row|);
    forall i | 0 <= i < |row| && i in cols
      ensures CellWeight(row[i]) == 0
    {
      var k :| 0 <= k < |cols| && cols[k] == i;
    }
    DupWeight(row, cols, |row|, CellWeight);
    assert row[..|row|] == row;
  }

  /** Doubling the empty rows of an image keeps its galaxies. */
  lemma DupGridTotal(g: Grid)
    ensures GalaxyTotal(Dup(g, EmptyRows(g))) == GalaxyTotal(g)
  {
    forall i | 0 <= i < |g| && i in EmptyRows(g)
      ensures RowTotal(g[i]) == 0
    {
      BlankRowTotal(g[i]);
    }
    DupWeight(g, EmptyRows(g), |g|, RowTotal);
    assert g[..|g|] == g;
  }

  /** The expansion of a rectangular image is rectangular, with one more row per empty row and one
      more column per empty column, and holds as many galaxies. */
  lemma ExpandShape(g: Grid)
    requires Rectangular(g)
    ensures Expand(g).Ok? && EmptyCols(g).Ok?
    ensures var e := Expand(g).value;
      |e| == |g| + |EmptyRows(g)| && Rectangular(e) && |e[0]| == |g[0]| + |EmptyCols(g).value|
      && GalaxyTotal(e) == GalaxyTotal(g)
  {
    var h := DoubledShape(g);
    ExpandDuplicates(g);
    var cols, e := EmptyCols(g).value, Expand(g).value;
    forall y | 0 <= y < |h|
      ensures |e[y]| == |g[0]| + |cols| && RowTotal(e[y]) == RowTotal(h[y])
    {
      DupRowTotal(h[y], cols);
    }
    WeightPointwise(e, h, RowTotal, RowTotal);
    DupGridTotal(g);
  }

  /** The row stage of `parse`: `offset` counts the rows already inserted. */
  method InsertRows(values: Grid, rows: seq<nat>, fill: seq<bool>) returns (v: Grid)
    requires forall k :: 0 <= k < |rows| ==> rows[k] <= |values|
    ensures v == InsertEach(values, rows, fill)
  {
    v := values;
    var offset := 0;
    while offset < |rows|
      invariant offset <= |rows| && v == InsertEach(values, rows[..offset], fill)
    {
      assert rows[..offset + 1][..offset] == rows[..offset];
      v := InsertAt(v, rows[offset] + offset, fill);
      offset := offset + 1;
    }
    assert rows[..|rows|] == rows;
  }

  /** `false` inserted at `at` into each row in turn; a row shorter than `at` panics. */
  method InsertInRows(v: Grid, at: nat) returns (r: Option<Grid>)
    ensures r.None? <==> exists y :: 0 <= y < |v| && |v[y]| < at
    ensures r.Some? ==> |r.value| == |v| && forall y :: 0 <= y < |v| ==> r.value[y] == InsertAt(v[y], at, false)
  {
    var out := v;
    var y := 0;
    while y < |v|
      invariant y <= |v| && |out| == |v|
      invariant forall j :: 0 <= j < y ==> at <= |v[j]| && out[j] == InsertAt(v[j], at, false)
      invariant forall j :: y <= j < |v| ==> out[j] == v[j]
    {
      if |out[y]| < at {
        return None;
      }
      out := out[y := InsertAt(out[y], at, false)];
      y := y + 1;
    }
    return Some(out);
  }

  /** The state of the column stage after `offset` columns: every row has them inserted. */
  predicate ColumnsInserted(values: Grid, cols: seq<nat>, offset: nat, v: Grid) {
    offset <= |cols| && |v| == |values|
    && (forall y, k :: 0 <= y < |values| && 0 <= k < offset ==> cols[k] <= |values[y]|)
    && forall y :: 0 <= y < |values| ==> v[y] == InsertEach(values[y], cols[..offset], false)
  }

  lemma ColumnsInsertedStep(values: Grid, cols: seq<nat>, offset: nat, v: Grid, next: Grid)
    requires ColumnsInserted(values, cols, offset, v) && offset < |cols|
    requires |next| == |v| && forall y :: 0 <= y < |v| ==> cols[offset] + offset <= |v[y]| && next[y] == InsertAt(v[y], cols[offset] + offset, false)
    ensures ColumnsInserted(values, cols, offset + 1, next)
  {
    assert cols[..offset + 1][..offset] == cols[..offset];
    forall y, k | 0 <= y < |values| && 0 <= k < offset + 1
      ensures cols[k] <= |values[y]|
    {
      if k == offset {
        assert |v[y]| == |values[y]| + offset;
      }
    }
  }

  /** The column stage of `parse`: `offset` counts the columns already inserted. */
  method InsertColumns(values: Grid, cols: seq<nat>) returns (r: Result<Grid>)
    ensures r == InsertCols(values, cols)
  {
    var v := values;
    var offset := 0;
    assert ColumnsInserted(values, cols, 0, v);
    while offset < |cols|
      invariant ColumnsInserted(values, cols, offset, v)
    {
      var next := InsertInRows(v, cols[offset] + offset);
      if next.None? {
        var y :| 0 <= y < |v| && |v[y]| < cols[offset] + offset;
        assert |values[y]| < cols[offset];
        return Err(INSERT_PANIC);
      }
      ColumnsInsertedStep(values, cols, offset, v, next.value);
      v := next.value;
      offset := offset + 1;
    }
    assert cols[..offset] == cols;
    assert !TooShort(values, cols);
    assert v == seq(|values|, y requires 0 <= y < |values| => InsertEach(values[y], cols, false));
    return Ok(v);
  }

  /** `GalaxyMap::parse`: the inserted rows are as wide as the image is tall. */
  method Parse(input: string) returns (r: Result<Grid>)
    ensures r == GalaxyMapOf(input)
  {
    var cells := Cells(input);
    if cells.Err? {
      return Err(cells.msg);
    }
    var values := cells.value;
    var size := |values|;
    var emptyRows := EmptyRows(values);
    var emptyCols := EmptyCols(values);
    if emptyCols.Err? {
      return Err(emptyCols.msg);
    }
    values := InsertRows(values, emptyRows, EmptyRow(size));
    r := InsertColumns(values, emptyCols.value);
  }

  // ---------------------------------------------------------------------------------------------
  // Galaxy positions

  /** Reading order: by row, then by column. */
  predicate Before(a: Pos, b: Pos) {
    a.y < b.y || (a.y == b.y && a.x < b.x)
  }

  predicate RowMajor(ps: seq<Pos>) {
    forall i, j :: 0 <= i < j < |ps| ==> Before(ps[i], ps[j])
  }

  /** The galaxies among the first `n` cells of row `y`, left to right. */
  function RowGalaxies(row: seq<bool>, y: int, n: nat): (ps: seq<Pos>)
    requires n <= |row|
    ensures forall i :: 0 <= i < |ps| ==> ps[i].y == y && 0 <= ps[i].x < n
  {
    if n == 0 then []
    else
      var ps := RowGalaxies(row, y, n - 1);
      if row[n - 1] then ps + [Pos(n - 1, y)] else ps
  }

  /** A row's galaxies are its galaxy cells, left to right. */
  lemma {:induction false} RowGalaxiesSpec(row: seq<bool>, y: int, n: nat)
    requires n <= |row|
    ensures var ps := RowGalaxies(row, y, n);
      RowMajor(ps) && forall p :: p in ps <==> p.y == y && 0 <= p.x < n && row[p.x]
  {
    if n > 0 {
      RowGalaxiesSpec(row, y, n - 1);
    }
  }

  /** The galaxies of the first `n` rows, `w` cells of each, in reading order. */
  function GridGalaxies(g: Grid, w: nat, n: nat): (ps: seq<Pos>)
    requires n <= |g| && forall y :: 0 <= y < n ==> w <= |g[y]|
    ensures forall i :: 0 <= i < |ps| ==> 0 <= ps[i].y < n
  {
    if n == 0 then []
    else GridGalaxies(g, w, n - 1) + RowGalaxies(g[n - 1], n - 1, w)
  }

  /** A position is listed exactly when it is a galaxy cell among the first `n` rows and `w` columns. */
  lemma {:induction false} GridGalaxiesMembers(g: Grid, w: nat, n: nat)
    requires n <= |g| && forall y :: 0 <= y < n ==> w <= |g[y]|
    ensures forall p :: p in GridGalaxies(g, w, n) <==> 0 <= p.y < n && 0 <= p.x < w && g[p.y][p.x]
  {
    if n > 0 {
      GridGalaxiesMembers(g, w, n - 1);
      RowGalaxiesSpec(g[n - 1], n - 1, w);
      var front, row := GridGalaxies(g, w, n - 1), RowGalaxies(g[n - 1], n - 1, w);
      forall p: Pos
        ensures p in front + row <==> 0 <= p.y < n && 0 <= p.x < w && g[p.y][p.x]
      {
        if p.y == n - 1 {
          assert p !in front;
          assert p in front + row <==> p in row;
        } else {
          assert p !in row;
          assert p in front + row <==> p in front;
        }
      }
    }
  }

  /** The galaxies are listed in reading order. */
  lemma {:induction false} GridGalaxiesOrdered(g: Grid, w: nat, n: nat)
    requires n <= |g| && forall y :: 0 <= y < n ==> w <= |g[y]|
    ensures RowMajor(GridGalaxies(g, w, n))
  {
    if n > 0 {
      GridGalaxiesOrdered(g, w, n - 1);
      RowGalaxiesSpec(g[n - 1], n - 1, w);
      var front, row := GridGalaxies(g, w, n - 1), RowGalaxies(g[n - 1], n - 1, w);
      var ps := front + row;
      forall i, j | 0 <= i < j < |ps|
        ensures Before(ps[i], ps[j])
      {
        if j < |front| {
        } else if i < |front| {
          assert ps[i] == front[i] && ps[j] == row[j - |front|];
        } else {
          assert ps[i] == row[i - |front|] && ps[j] == row[j - |front|];
        }
      }
    }
  }

  /** One galaxy per galaxy cell: the first `n` cells of a row hold that many galaxies. */
  lemma {:induction false} RowGalaxiesCount(row: seq<bool>, y: int, n: nat)
    requires n <= |row|
    ensures |RowGalaxies(row, y, n)| == RowTotal(row[..n])
  {
    if n > 0 {
      RowGalaxiesCount(row, y, n - 1);
      assert row[..n][..n - 1] == row[..n - 1];
    }
  }

  lemma {:induction false} GridGalaxiesCount(g: Grid, w: nat, n: nat)
    requires n <= |g| && forall y :: 0 <= y < n ==> |g[y]| == w
    ensures |GridGalaxies(g, w, n)| == GalaxyTotal(g[..n])
  {
    if n > 0 {
      GridGalaxiesCount(g, w, n - 1);
      RowGalaxiesCount(g[n - 1], n - 1, w);
      assert g[..n][..n - 1] == g[..n - 1];
      assert g[n - 1][..w] == g[n - 1];
    }
  }

  /** `galaxy_positions`: every cell of the width of the first row, row by row. A row shorter than the
      first one, or an image without rows, panics. */
  function Galaxies(g: Grid): (r: Result<seq<Pos>>)
    ensures r.Err? <==> g == [] || exists y :: 0 <= y < |g| && |g[y]| < |g[0]|
    ensures r.Err? ==> r.msg == INDEX_PANIC
  {
    if g == [] || exists y :: 0 <= y < |g| && |g[y]| < |g[0]| then Err(INDEX_PANIC)
    else Ok(GridGalaxies(g, |g[0]|, |g|))
  }

  /** The positions of a galaxy map are its galaxies in reading order, one per galaxy cell. */
  lemma GalaxiesSpec(g: Grid)
    requires Galaxies(g).Ok?
    ensures var ps := Galaxies(g).value;
      RowMajor(ps) && forall p :: p in ps <==> 0 <= p.y < |g| && 0 <= p.x < |g[0]| && g[p.y][p.x]
  {
    GridGalaxiesOrdered(g, |g[0]|, |g|);
    GridGalaxiesMembers(g, |g[0]|, |g|);
  }

  /** A rectangular image has as many positions as galaxy cells. */
  lemma GalaxiesCount(g: Grid)
    requires Rectangular(g)
    ensures Galaxies(g).Ok? && |Galaxies(g).value| == GalaxyTotal(g)
  {
    GridGalaxiesCount(g, |g[0]|, |g|);
    assert g[..|g|] == g;
  }

  /** The inner loop of `galaxy_positions` over the first `w` cells of row `y`. */
  method RowPositions(row: seq<bool>, y: nat, w: nat, res: seq<Pos>) returns (out: seq<Pos>)
    requires w <= |row|
    ensures out == res + RowGalaxies(row, y, w)
  {
    out := res;
    var x := 0;
    while x < w
      invariant x <= w && out == res + RowGalaxies(row, y, x)
    {
      if row[x] {
        out := out + [Pos(x, y)];
      }
      x := x + 1;
    }
  }

  /** `galaxy_positions`. */
  method GalaxyPositions(g: Grid) returns (r: Result<seq<Pos>>)
    ensures r == Galaxies(g)
  {
    if g == [] {
      return Err(INDEX_PANIC);
    }
    var w := |g[0]|;
    var res := [];
    var y := 0;
    while y < |g|
      invariant y <= |g| && forall j :: 0 <= j < y ==> w <= |g[j]|
      invariant res == GridGalaxies(g, w, y)
    {
      if |g[y]| < w {
        assert |g[y]| < |g[0]|;
        return Err(INDEX_PANIC);
      }
      res := RowPositions(g[y], y, w, res);
      assert res == GridGalaxies(g, w, y + 1);
      y := y + 1;
    }
    assert !exists j :: 0 <= j < |g| && |g[j]| < w;
    return Ok(res);
  }

  // ---------------------------------------------------------------------------------------------
  // Distances

  /** The distances from the first `n` galaxies to galaxy `j`. */
  function DistancesTo(ps: seq<Pos>, j: nat, n: nat): nat
    requires j < |ps| && n <= |ps|
  {
    if n == 0 then 0 else DistancesTo(ps, j, n - 1) + Manhattan(ps[n - 1], ps[j])
  }

  /** The distances of the pairs among the first `n` galaxies, each pair `i < j` once, as
      `tuple_combinations` lists them. */
  function PairDistances(ps: seq<Pos>, n: nat): nat
    requires n <= |ps|
  {
    if n == 0 then 0 else PairDistances(ps, n - 1) + DistancesTo(ps, n - 1, n - 1)
  }

  /** `sum_distances`. */
  function SumDistances(ps: seq<Pos>): (r: nat)
    ensures 2 * r == AllDistances(ps, |ps|, |ps|)
  {
    PairsHalf(ps, |ps|);
    PairDistances(ps, |ps|)
  }

  /** The reference sum: for each of the first `m` galaxies, the distances to the first `k`, so every
      ordered pair (and every galaxy with itself) is counted. */
  function AllDistances(ps: seq<Pos>, m: nat, k: nat): nat
    requires m <= |ps| && k <= |ps|
  {
    if m == 0 then 0 else AllDistances(ps, m - 1, k) + DistancesTo(ps, m - 1, k)
  }

  /** One more galaxy on the near side of every ordered pair adds its distances to the first `m`. */
  lemma {:induction false} AllDistancesStep(ps: seq<Pos>, m: nat, k: nat)
    requires m <= |ps| && k < |ps|
    ensures AllDistances(ps, m, k + 1) == AllDistances(ps, m, k) + DistancesTo(ps, k, m)
  {
    if m > 0 {
      AllDistancesStep(ps, m - 1, k);
      assert Manhattan(ps[k], ps[m - 1]) == Manhattan(ps[m - 1], ps[k]);
    }
  }

  /** Every unordered pair is half of the ordered pairs, since a distance is symmetric and a galaxy is
      at distance zero from itself. */
  lemma {:induction false} PairsHalf(ps: seq<Pos>, n: nat)
    requires n <= |ps|
    ensures AllDistances(ps, n, n) == 2 * PairDistances(ps, n)
  {
    if n > 0 {
      PairsHalf(ps, n - 1);
      AllDistancesStep(ps, n - 1, n - 1);
      assert DistancesTo(ps, n - 1, n) == DistancesTo(ps, n - 1, n - 1);
    }
  }

  // ---------------------------------------------------------------------------------------------
  // The puzzle

  /** `day11_1`: the sum of the distances between the galaxies of the expanded image. */
  function Part1(input: string): (r: Result<nat>)
    ensures GalaxyMapOf(input).Err? ==> r == Err(GalaxyMapOf(input).msg)
    ensures r.Ok? ==> GalaxyMapOf(input).Ok? && Galaxies(GalaxyMapOf(input).value).Ok?
    ensures r.Ok? ==> var ps := Galaxies(GalaxyMapOf(input).value).value; 2 * r.value == AllDistances(ps, |ps|, |ps|)
  {
    var g :- GalaxyMapOf(input);
    var ps :- Galaxies(g);
    Ok(SumDistances(ps))
  }

  /** On a square image, where the inserted rows are as wide as the others, the answer is the sum of
      the distances between the galaxies of its expansion, in reading order, of which there are as
      many as in the image. */
  lemma Part1Square(input: string, g: Grid)
    requires Cells(input) == Ok(g) && Rectangular(g) && |g[0]| == |g|
    ensures ExpandAsWritten(g) == Expand(g) && Expand(g).Ok?
    ensures var ps := Galaxies(Expand(g).value);
      ps.Ok? && RowMajor(ps.value) && |ps.value| == GalaxyTotal(g) && Part1(input) == Ok(SumDistances(ps.value))
  {
    ExpandShape(g);
    var e := Expand(g).value;
    GalaxiesCount(e);
    GalaxiesSpec(e);
  }

  // ---------------------------------------------------------------------------------------------
  // The unit test and the width of the inserted rows

  /** The galaxies of the sample image after its expansion, in reading order. */
  const SAMPLE_GALAXIES: seq<Pos> :=
    [Pos(4, 0), Pos(9, 1), Pos(0, 2), Pos(8, 5), Pos(1, 6), Pos(12, 7), Pos(9, 10), Pos(0, 11), Pos(5, 11)]

  /** The distances from the galaxies before galaxy `j` of the sample to it, for `j` from 1 to 8. */
  lemma SampleDistancesTo1()
    ensures DistancesTo(SAMPLE_GALAXIES, 1, 1) == 6
  {
  }

  lemma SampleDistancesTo2()
    ensures DistancesTo(SAMPLE_GALAXIES, 2, 2) == 16
  {
  }

  lemma SampleDistancesTo3()
    ensures DistancesTo(SAMPLE_GALAXIES, 3, 3) == 25
  {
  }

  lemma SampleDistancesTo4()
    ensures DistancesTo(SAMPLE_GALAXIES, 4, 4) == 35
  {
  }

  lemma SampleDistancesTo5()
    ensures DistancesTo(SAMPLE_GALAXIES, 5, 5) == 59
  {
    assert DistancesTo(SAMPLE_GALAXIES, 5, 3) == 41;
  }

  lemma SampleDistancesTo6()
    ensures DistancesTo(SAMPLE_GALAXIES, 6, 6) == 65
  {
  }

  lemma SampleDistancesTo7()
    ensures DistancesTo(SAMPLE_GALAXIES, 7, 7) == 89
  {
  }

  lemma SampleDistancesTo8()
    ensures DistancesTo(SAMPLE_GALAXIES, 8, 8) == 79
  {
  }

  /** The unit test's answer: the distances between the galaxies of the expanded sample add up to 374. */
  lemma SampleDistances()
    ensures SumDistances(SAMPLE_GALAXIES) == 374
  {
    SampleDistancesTo1();
    SampleDistancesTo2();
    SampleDistancesTo3();
    SampleDistancesTo4();
    SampleDistancesTo5();
    SampleDistancesTo6();
    SampleDistancesTo7();
    SampleDistancesTo8();
  }

  /** An image four cells wide and two tall, its top row empty and a galaxy at the left of the other. */
  const WIDE: Grid := [[false, false, false, false], [true, false, false, false]]

  lemma WideEmptyRows()
    ensures EmptyRows(WIDE) == [0]
  {
    var top := WIDE[..1];
    assert top[..0] == [] && top[0] == WIDE[0];
    assert Blank(top[0]);
    assert EmptyRows(top) == [0];
    assert WIDE[..|WIDE| - 1] == top;
    assert !Blank(WIDE[1]) by {
      assert WIDE[1][0];
    }
  }

  lemma WideEmptyColumn() returns (k: nat)
    ensures EmptyCols(WIDE).Ok? && k < |EmptyCols(WIDE).value| && EmptyCols(WIDE).value[k] == 3
  {
    assert Rectangular(WIDE);
    EmptyColsRectangular(WIDE);
    assert ColumnBlank(WIDE, 3);
    k :| 0 <= k < |EmptyCols(WIDE).value| && EmptyCols(WIDE).value[k] == 3;
  }

  /** The top row of the wide image is empty and the other holds one galaxy. */
  lemma WideTotal()
    ensures GalaxyTotal(WIDE) == 1
  {
    var top, bottom := WIDE[0], WIDE[1];
    BlankRowTotal(top);
    BlankRowTotal(bottom[1..]);
    assert [true][..0] == [];
    assert bottom == [true] + bottom[1..];
    WeightAppend([true], bottom[1..], CellWeight);
    assert [top][..0] == [];
    assert WIDE == [top] + [bottom];
    WeightAppend([top], [bottom], RowTotal);
  }

  /** `parse` inserts rows as wide as the image is tall, so on an image wider than it is tall the
      column stage inserts past the end of such a row and panics. */
  lemma AsWrittenPanicsOnWideImage()
    ensures ExpandAsWritten(WIDE) == Err(INSERT_PANIC)
  {
    var k := WideEmptyColumn();
    var cols := EmptyCols(WIDE).value;
    WideEmptyRows();
    var h := InsertEach(WIDE, [0], EmptyRow(|WIDE|));
    assert h == InsertAt(WIDE, 0, EmptyRow(2));
    assert |h[0]| < cols[k];
    assert TooShort(h, cols);
  }

  /** With the inserted rows as wide as the image, the wide image expands and its single galaxy gives
      the answer 0. */
  lemma ExpandWideImage()
    ensures Expand(WIDE).Ok? && Galaxies(Expand(WIDE).value).Ok?
    ensures SumDistances(Galaxies(Expand(WIDE).value).value) == 0
  {
    assert Rectangular(WIDE);
    ExpandShape(WIDE);
    var e := Expand(WIDE).value;
    WideTotal();
    GalaxiesCount(e);
    var ps := Galaxies(e).value;
    assert |ps| == 1;
    assert PairDistances(ps, 1) == DistancesTo(ps, 0, 0);
  }
}
