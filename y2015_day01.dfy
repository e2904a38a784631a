/** 2015 day 1: Santa follows parentheses up and down floors. */
module Y2015Day01 {
  import opened Outcomes
  import opened Text

  predicate IsParen(c: char) { c == '(' || c == ')' }

  predicate AllParens(s: string) {
    forall k :: 0 <= k < |s| ==> IsParen(s[k])
  }

  /** The floor reached from floor 0 after following `s`. */
  function Floor(s: string): int {
    Count(s, '(') - Count(s, ')')
  }

  function Step(c: char): int { if c == '(' then 1 else if c == ')' then -1 else 0 }

  lemma FloorSnoc(s: string, c: char)
    ensures Floor(s + [c]) == Floor(s) + Step(c)
  {
    CountAppend(s, [c], '(');
    CountAppend(s, [c], ')');
  }

  lemma FloorCons(s: string)
    requires s != []
    ensures Floor(s) == Step(s[0]) + Floor(s[1..])
  {
  }

  /** `day01_1`: the final floor cast to `u128`; any other character is an error. */
  method Part1(input: string) returns (r: Result<nat>)
    ensures r.Ok? <==> AllParens(input)
    ensures r.Ok? ==> r.value == AsU128(Floor(input))
    ensures r.Err? ==>
      exists k :: 0 <= k < |input| && AllParens(input[..k]) && !IsParen(input[k]) && r.msg == "unrecognized command " + [input[k]]
  {
    var floor: int := 0;
    for i := 0 to |input|
      invariant floor == Floor(input[..i]) && AllParens(input[..i])
    {
      var c := input[i];
      if c == '(' {
        floor := floor + 1;
      } else if c == ')' {
        floor := floor - 1;
      } else {
        return Err("unrecognized command " + [c]);
      }
      assert input[..i + 1] == input[..i] + [c];
      FloorSnoc(input[..i], c);
    }
    assert input[..|input|] == input;
    return Ok(AsU128(floor));
  }

  /** The 1-based position at which the floor, starting from `floor`, first reaches -1. */
  function Basement(s: string, floor: int): (r: Result<nat>)
    ensures r.Ok? ==> 1 <= r.value <= |s|
  {
    if s == [] then Err("Never got to floor -1")
    else if !IsParen(s[0]) then Err("unrecognized command " + [s[0]])
    else if floor + Step(s[0]) == -1 then Ok(1)
    else match Basement(s[1..], floor + Step(s[0]))
      case Ok(v) => Ok(v + 1)
      case Err(e) => Err(e)
  }

  /** `Basement` finds the first prefix of parentheses that ends on floor -1. */
  lemma {:induction false} BasementOk(s: string, floor: int)
    requires Basement(s, floor).Ok?
    ensures var v := Basement(s, floor).value;
      AllParens(s[..v]) && floor + Floor(s[..v]) == -1 &&
      forall u :: 1 <= u < v ==> floor + Floor(s[..u]) != -1
  {
    var v := Basement(s, floor).value;
    assert s[..v][0] == s[0] && s[..v][1..] == s[1..][..v - 1];
    FloorCons(s[..v]);
    if floor + Step(s[0]) != -1 {
      BasementOk(s[1..], floor + Step(s[0]));
      forall u | 1 <= u < v
        ensures floor + Floor(s[..u]) != -1
      {
        assert s[..u][1..] == s[1..][..u - 1];
        FloorCons(s[..u]);
      }
      assert forall k :: 1 <= k < v ==> s[..v][k] == s[1..][..v - 1][k - 1];
    }
  }

  /** When `Basement` fails, no prefix of parentheses ends on floor -1. */
  lemma {:induction false} BasementErr(s: string, floor: int)
    requires Basement(s, floor).Err?
    ensures forall v :: 1 <= v <= |s| && AllParens(s[..v]) ==> floor + Floor(s[..v]) != -1
  {
    if s != [] && IsParen(s[0]) {
      BasementErr(s[1..], floor + Step(s[0]));
      forall v | 1 <= v <= |s| && AllParens(s[..v])
        ensures floor + Floor(s[..v]) != -1
      {
        assert s[..v][1..] == s[1..][..v - 1];
        FloorCons(s[..v]);
      }
    } else if s != [] {
      forall v | 1 <= v <= |s|
        ensures !AllParens(s[..v])
      {
        assert s[..v][0] == s[0];
      }
    }
  }

  /** A failed search either read only parentheses and never reached floor -1, or names the first
      character that is not a parenthesis. */
  lemma {:induction false} BasementErrMessage(s: string, floor: int)
    requires Basement(s, floor).Err?
    ensures var e := Basement(s, floor).msg;
      (AllParens(s) && e == "Never got to floor -1") ||
      exists k :: 0 <= k < |s| && AllParens(s[..k]) && !IsParen(s[k]) && e == "unrecognized command " + [s[k]]
  {
    if s == [] {
    } else if !IsParen(s[0]) {
      assert AllParens(s[..0]);
    } else {
      var rest := s[1..];
      BasementErrMessage(rest, floor + Step(s[0]));
      if !AllParens(rest) || Basement(rest, floor + Step(s[0])).msg != "Never got to floor -1" {
        var k :| 0 <= k < |rest| && AllParens(rest[..k]) && !IsParen(rest[k]) &&
          Basement(rest, floor + Step(s[0])).msg == "unrecognized command " + [rest[k]];
        assert s[..k + 1] == [s[0]] + rest[..k];
        assert s[k + 1] == rest[k];
      } else {
        assert s == [s[0]] + rest;
      }
    }
  }

  function Offset(r: Result<nat>, i: nat): Result<nat> {
    match r
    case Ok(v) => Ok(v + i)
    case Err(e) => Err(e)
  }

  /** One parenthesis more: the floor moves by its step, and the search either stops on it or
      continues from the next position. */
  lemma BasementStep(s: string, i: nat, floor: int)
    requires i < |s| && IsParen(s[i]) && floor == Floor(s[..i])
    ensures Floor(s[..i + 1]) == floor + Step(s[i])
    ensures floor + Step(s[i]) == -1 ==> Basement(s[i..], floor) == Ok(1)
    ensures floor + Step(s[i]) != -1 ==>
      Offset(Basement(s[i..], floor), i) == Offset(Basement(s[i + 1..], floor + Step(s[i])), i + 1)
  {
    assert s[..i + 1] == s[..i] + [s[i]];
    FloorSnoc(s[..i], s[i]);
    assert s[i..][0] == s[i] && s[i..][1..] == s[i + 1..];
  }

  /** `day01_2`: the position of the first character that takes Santa to the basement. */
  method Part2(input: string) returns (r: Result<nat>)
    ensures r == Basement(input, 0)
    ensures r.Err? ==>
      (AllParens(input) && r.msg == "Never got to floor -1") ||
      exists k :: 0 <= k < |input| && AllParens(input[..k]) && !IsParen(input[k]) && r.msg == "unrecognized command " + [input[k]]
  {
    if Basement(input, 0).Err? {
      BasementErrMessage(input, 0);
    }
    var floor: int := 0;
    for i := 0 to |input|
      invariant floor == Floor(input[..i])
      invariant Basement(input, 0) == Offset(Basement(input[i..], floor), i)
    {
      var c := input[i];
      if c == '(' {
        floor := floor + 1;
      } else if c == ')' {
        floor := floor - 1;
      } else {
        assert input[i..][0] == c;
        return Err("unrecognized command " + [c]);
      }
      BasementStep(input, i, floor - Step(c));
      if floor == -1 {
        return Ok(i + 1);
      }
    }
    assert input[|input|..] == [];
    return Err("Never got to floor -1");
  }

  lemma FixturesGround()
    ensures AsU128(Floor("(())")) == 0 && AsU128(Floor("()()")) == 0
  {
  }

  lemma FixturesThird()
    ensures AsU128(Floor("(((")) == 3 && AsU128(Floor("(()(()(")) == 3 && AsU128(Floor("))(((((")) == 3
  {
  }

  lemma FixturesBasement()
    ensures Basement(")", 0) == Ok(1) && Basement("()())", 0) == Ok(5)
  {
  }
}
