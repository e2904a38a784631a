/** Solutions that add up a value per input line and stop at the first line that fails. */
module LineSums {
  import opened Outcomes
  import opened Text

  /** The sum of `f` over the lines, or the error of the first line on which `f` fails. */
  function SumLines(lines: seq<string>, f: string -> Result<nat>): (r: Result<nat>)
    ensures r.Ok? <==> forall i :: 0 <= i < |lines| ==> f(lines[i]).Ok?
  {
    if lines == [] then Ok(0)
    else
      var s :- SumLines(lines[..|lines| - 1], f);
      var v :- f(lines[|lines| - 1]);
      assert forall i :: 0 <= i < |lines| - 1 ==> lines[..|lines| - 1][i] == lines[i];
      Ok(s + v)
  }

  lemma {:induction false} SumLinesSticks(lines: seq<string>, f: string -> Result<nat>, i: nat)
    requires i <= |lines| && SumLines(lines[..i], f).Err?
    ensures SumLines(lines, f) == SumLines(lines[..i], f)
    decreases |lines|
  {
    if i < |lines| {
      var init := lines[..|lines| - 1];
      assert init[..i] == lines[..i];
      SumLinesSticks(init, f, i);
    } else {
      assert lines[..i] == lines;
    }
  }

  function Total(vs: seq<nat>): nat {
    if vs == [] then 0 else Total(vs[..|vs| - 1]) + vs[|vs| - 1]
  }

  /** When every line has a value, the sum is the total of the values. */
  lemma {:induction false} SumLinesValues(lines: seq<string>, f: string -> Result<nat>, vs: seq<nat>)
    requires |vs| == |lines| && forall i :: 0 <= i < |lines| ==> f(lines[i]) == Ok(vs[i])
    ensures SumLines(lines, f) == Ok(Total(vs))
  {
    if lines != [] {
      var n := |lines| - 1;
      assert forall i :: 0 <= i < n ==> lines[..n][i] == lines[i] && vs[..n][i] == vs[i];
      SumLinesValues(lines[..n], f, vs[..n]);
    }
  }

  /** The loop of `day01_1` and `day01_2`: add up `f` of each line, stopping at the first error. */
  method Accumulate(input: string, f: string -> Result<nat>) returns (r: Result<nat>)
    ensures r == SumLines(Lines(input), f)
  {
    var lines := Lines(input);
    var sum := 0;
    for i := 0 to |lines|
      invariant SumLines(lines[..i], f) == Ok(sum)
    {
      assert lines[..i + 1][..i] == lines[..i];
      var v := f(lines[i]);
      if v.Err? {
        SumLinesSticks(lines, f, i + 1);
        return Err(v.msg);
      }
      sum := sum + v.value;
    }
    assert lines[..|lines|] == lines;
    return Ok(sum);
  }
}
