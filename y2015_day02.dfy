/** 2015 day 2: wrapping paper and ribbon for boxes given as "LxWxH" lines. */
module Y2015Day02 {
  import opened Outcomes
  import opened Text

  datatype Box = Box(l: nat, w: nat, h: nat)

  /** `s.parse::<u128>().unwrap()`: a bad field is the `unwrap` panic on its `ParseIntError`. */
  function ParseDimension(s: string): (r: Result<nat>)
    ensures r.Ok? <==> ParseUnsigned(s, U128_BOUND).Some?
    ensures r.Ok? ==> ParseUnsigned(s, U128_BOUND) == Some(r.value)
    ensures r.Err? ==> IntError(s, false, U128_BOUND).Some? && r.msg == UnwrapIntError(s, false, U128_BOUND)
  {
    match ParseUnsigned(s, U128_BOUND)
    case Some(v) => Ok(v)
    case None => ParseUnsignedError(s, U128_BOUND); Err(UnwrapIntError(s, false, U128_BOUND))
  }

  /** One line of `parse_day02`: the first three 'x'-separated fields, each taken with
      `split.next().unwrap()` and parsed before the next is taken; later fields are ignored. */
  function ParseBox(line: string): (r: Result<Box>)
    ensures var p := Split(line, "x");
      r.Ok? <==> |p| >= 3 && forall k :: 0 <= k < 3 ==> ParseUnsigned(p[k], U128_BOUND).Some?
    ensures r.Ok? ==> var p := Split(line, "x");
      ParseUnsigned(p[0], U128_BOUND) == Some(r.value.l) &&
      ParseUnsigned(p[1], U128_BOUND) == Some(r.value.w) &&
      ParseUnsigned(p[2], U128_BOUND) == Some(r.value.h)
    ensures var p := Split(line, "x");
      ParseDimension(p[0]).Err? ==> r == Err(ParseDimension(p[0]).msg)
    ensures var p := Split(line, "x");
      ParseDimension(p[0]).Ok? && |p| < 2 ==> r == Err(UNWRAP_NONE)
    ensures var p := Split(line, "x");
      ParseDimension(p[0]).Ok? && |p| >= 2 && ParseDimension(p[1]).Err? ==> r == Err(ParseDimension(p[1]).msg)
    ensures var p := Split(line, "x");
      ParseDimension(p[0]).Ok? && |p| >= 2 && ParseDimension(p[1]).Ok? && |p| < 3 ==> r == Err(UNWRAP_NONE)
    ensures var p := Split(line, "x");
      |p| >= 3 && ParseDimension(p[0]).Ok? && ParseDimension(p[1]).Ok? && ParseDimension(p[2]).Err? ==>
      r == Err(ParseDimension(p[2]).msg)
  {
    var p := Split(line, "x");
    var l :- ParseDimension(p[0]);
    if |p| < 2 then Err(UNWRAP_NONE)
    else
      var w :- ParseDimension(p[1]);
      if |p| < 3 then Err(UNWRAP_NONE)
      else
        var h :- ParseDimension(p[2]);
        Ok(Box(l, w, h))
  }

  /** A line of one good field panics on the missing second field. */
  lemma OneField(a: string)
    requires 'x' !in a && ParseUnsigned(a, U128_BOUND).Some?
    ensures ParseBox(a) == Err(UNWRAP_NONE)
  {
    SplitLast(a, "x");
  }

  /** A line of two good fields panics on the missing third field. */
  lemma TwoFields(a: string, b: string)
    requires 'x' !in a && 'x' !in b
    requires ParseUnsigned(a, U128_BOUND).Some? && ParseUnsigned(b, U128_BOUND).Some?
    ensures ParseBox(a + "x" + b) == Err(UNWRAP_NONE)
  {
    SplitCons(a, "x", b);
    SplitLast(b, "x");
  }

  /** A bad first field panics on its `ParseIntError` before any missing field is noticed. */
  lemma BadFirstField(a: string, b: string)
    requires 'x' !in a && ParseUnsigned(a, U128_BOUND).None?
    ensures IntError(a, false, U128_BOUND).Some?
    ensures ParseBox(a + "x" + b) == Err(UnwrapIntError(a, false, U128_BOUND))
  {
    ParseUnsignedError(a, U128_BOUND);
    SplitCons(a, "x", b);
  }

  /** `parse_day02`: one box per line, in order. */
  function ParseBoxes(lines: seq<string>): (r: Result<seq<Box>>)
    ensures r.Ok? <==> forall i :: 0 <= i < |lines| ==> ParseBox(lines[i]).Ok?
    ensures r.Ok? ==> |r.value| == |lines| && forall i :: 0 <= i < |lines| ==> ParseBox(lines[i]) == Ok(r.value[i])
  {
    CollectAll(lines, ParseBox)
  }

  function Min3(a: nat, b: nat, c: nat): (m: nat)
    ensures m <= a && m <= b && m <= c && (m == a || m == b || m == c)
  {
    if a <= b && a <= c then a else if b <= c then b else c
  }

  /** Surface area plus the area of the smallest side. */
  function Paper(b: Box): (n: nat)
    ensures n >= 2 * (b.l * b.w + b.w * b.h + b.h * b.l)
  {
    2 * b.l * b.w + 2 * b.w * b.h + 2 * b.h * b.l + Min3(b.l * b.w, b.w * b.h, b.h * b.l)
  }

  /** Smallest perimeter plus the volume. */
  function Ribbon(b: Box): (n: nat)
    ensures n >= b.l * b.w * b.h
  {
    Min3(2 * (b.l + b.w), 2 * (b.w + b.h), 2 * (b.h + b.l)) + b.l * b.w * b.h
  }

  function TotalPaper(bs: seq<Box>): nat {
    if bs == [] then 0 else TotalPaper(bs[..|bs| - 1]) + Paper(bs[|bs| - 1])
  }

  function TotalRibbon(bs: seq<Box>): nat {
    if bs == [] then 0 else TotalRibbon(bs[..|bs| - 1]) + Ribbon(bs[|bs| - 1])
  }

  /** The accumulation loop of `day02_1`. */
  method PaperLoop(boxes: seq<Box>) returns (total: nat)
    ensures total == TotalPaper(boxes)
  {
    total := 0;
    for i := 0 to |boxes|
      invariant total == TotalPaper(boxes[..i])
    {
      assert boxes[..i + 1][..i] == boxes[..i];
      total := total + Paper(boxes[i]);
    }
    assert boxes[..|boxes|] == boxes;
  }

  /** The accumulation loop of `day02_2`. */
  method RibbonLoop(boxes: seq<Box>) returns (total: nat)
    ensures total == TotalRibbon(boxes)
  {
    total := 0;
    for i := 0 to |boxes|
      invariant total == TotalRibbon(boxes[..i])
    {
      assert boxes[..i + 1][..i] == boxes[..i];
      total := total + Ribbon(boxes[i]);
    }
    assert boxes[..|boxes|] == boxes;
  }

  /** `day02_1`: the paper needed for every box. */
  method Part1(input: string) returns (r: Result<nat>)
    ensures r.Ok? <==> ParseBoxes(Lines(input)).Ok?
    ensures r.Ok? ==> r.value == TotalPaper(ParseBoxes(Lines(input)).value)
  {
    var parsed := ParseBoxes(Lines(input));
    if parsed.Err? {
      return Err(parsed.msg);
    }
    var total := PaperLoop(parsed.value);
    return Ok(total);
  }

  /** `day02_2`: the ribbon needed for every box. */
  method Part2(input: string) returns (r: Result<nat>)
    ensures r.Ok? <==> ParseBoxes(Lines(input)).Ok?
    ensures r.Ok? ==> r.value == TotalRibbon(ParseBoxes(Lines(input)).value)
  {
    var parsed := ParseBoxes(Lines(input));
    if parsed.Err? {
      return Err(parsed.msg);
    }
    var total := RibbonLoop(parsed.value);
    return Ok(total);
  }

  /** Each total is a sum over lines: no lines, nothing needed. */
  lemma EmptyInput()
    ensures ParseBoxes(Lines("")) == Ok([])
    ensures TotalPaper([]) == 0 && TotalRibbon([]) == 0
  {
  }

  /** The totals add up line by line. */
  lemma {:induction false} TotalPaperAppend(a: seq<Box>, b: seq<Box>)
    ensures TotalPaper(a + b) == TotalPaper(a) + TotalPaper(b)
    decreases |b|
  {
    if b == [] {
      assert a + b == a;
    } else {
      assert (a + b)[..|a + b| - 1] == a + b[..|b| - 1];
      TotalPaperAppend(a, b[..|b| - 1]);
    }
  }

  lemma FormulaFixtures()
    ensures Paper(Box(2, 3, 4)) == 58 && Paper(Box(1, 1, 10)) == 43
    ensures Ribbon(Box(2, 3, 4)) == 34 && Ribbon(Box(1, 1, 10)) == 14
  {
  }

  lemma NoXInDigits(s: string)
    requires AllDigits(s)
    ensures 'x' !in s
  {
    assert forall k :: 0 <= k < |s| ==> s[k] != 'x';
  }

  /** Parsing reads back the dimensions of a box written as "LxWxH". */
  lemma {:induction false} ParseBoxRoundTrip(b: Box)
    requires b.l < U128_BOUND && b.w < U128_BOUND && b.h < U128_BOUND
    ensures ParseBox(Decimal(b.l) + "x" + Decimal(b.w) + "x" + Decimal(b.h)) == Ok(b)
  {
    var l, w, h := Decimal(b.l), Decimal(b.w), Decimal(b.h);
    NoXInDigits(l);
    NoXInDigits(w);
    NoXInDigits(h);
    assert l + "x" + w + "x" + h == l + "x" + (w + "x" + h);
    SplitCons(l, "x", w + "x" + h);
    SplitCons(w, "x", h);
    SplitLast(h, "x");
    DecimalRoundTrip(b.l, U128_BOUND);
    DecimalRoundTrip(b.w, U128_BOUND);
    DecimalRoundTrip(b.h, U128_BOUND);
  }
}
