/** 2023 day 9: sensor histories. The next value of a history is its last value plus the next value
    of its list of consecutive differences, down to a list of zeros. */
module Y2023Day09 {
  import opened Outcomes
  import opened Text
  import opened Numbers

  predicate AllZero(s: seq<int>) {
    forall i :: 0 <= i < |s| ==> s[i] == 0
  }

  /** `tuple_windows().map(|(a, b)| b - a)`: the consecutive differences, one fewer than the values. */
  function Differences(s: seq<int>): (d: seq<int>)
    ensures |d| == if s == [] then 0 else |s| - 1
  {
    if |s| < 2 then [] else seq(|s| - 1, i requires 0 <= i < |s| - 1 => s[i + 1] - s[i])
  }

  /** `History::predict_next`: zero for a list of zeros (the empty list included), otherwise the
      last value plus the prediction for the differences. */
  function PredictNext(s: seq<int>): (r: int)
    ensures |s| == 1 ==> r == s[0]
    decreases |s|
  {
    if AllZero(s) then 0 else s[|s| - 1] + PredictNext(Differences(s))
  }

  /** The early exit for zeros changes nothing: every non-empty history is its last value plus the
      prediction for its differences. */
  lemma {:induction false} PredictNextUnfolds(s: seq<int>)
    requires s != []
    ensures PredictNext(s) == s[|s| - 1] + PredictNext(Differences(s))
  {
    if AllZero(s) {
      var d := Differences(s);
      assert AllZero(d) by {
        if |s| >= 2 {
          forall i | 0 <= i < |d|
            ensures d[i] == 0
          {
            assert d[i] == s[i + 1] - s[i];
          }
        }
      }
    }
  }

  /** Element-wise sum of two lists of the same length. */
  function Plus(a: seq<int>, b: seq<int>): (c: seq<int>)
    requires |a| == |b|
    ensures |c| == |a| && forall i :: 0 <= i < |a| ==> c[i] == a[i] + b[i]
  {
    seq(|a|, i requires 0 <= i < |a| => a[i] + b[i])
  }

  /** The prediction is linear: predicting a sum of histories is summing their predictions. */
  lemma {:induction false} PredictNextLinear(a: seq<int>, b: seq<int>)
    requires |a| == |b|
    ensures PredictNext(Plus(a, b)) == PredictNext(a) + PredictNext(b)
    decreases |a|
  {
    if a != [] {
      var c := Plus(a, b);
      PredictNextUnfolds(a);
      PredictNextUnfolds(b);
      PredictNextUnfolds(c);
      var da, db := Differences(a), Differences(b);
      assert Differences(c) == Plus(da, db) by {
        if |a| >= 2 {
          forall i | 0 <= i < |a| - 1
            ensures Differences(c)[i] == Plus(da, db)[i]
          {
          }
        }
      }
      PredictNextLinear(da, db);
    }
  }

  /** A non-empty list holding one value everywhere predicts that value. */
  lemma PredictNextConstant(s: seq<int>, c: int)
    requires s != [] && forall i :: 0 <= i < |s| ==> s[i] == c
    ensures PredictNext(s) == c
  {
    PredictNextUnfolds(s);
    var d := Differences(s);
    assert AllZero(d) by {
      if |s| >= 2 {
        assert forall i :: 0 <= i < |d| ==> d[i] == s[i + 1] - s[i];
      }
    }
  }

  /** Consecutive terms of an arithmetic progression differ by its step. */
  lemma NextTerm(a: int, i: int, step: int)
    ensures (a + (i + 1) * step) - (a + i * step) == step
  {
  }

  /** An arithmetic sequence of at least two values continues with one more step. */
  lemma PredictNextArithmetic(s: seq<int>, a: int, step: int)
    requires |s| >= 2 && forall i :: 0 <= i < |s| ==> s[i] == a + i * step
    ensures PredictNext(s) == s[|s| - 1] + step
  {
    var d := Differences(s);
    forall i | 0 <= i < |d|
      ensures d[i] == step
    {
      assert d[i] == s[i + 1] - s[i];
      NextTerm(a, i, step);
    }
    PredictNextUnfolds(s);
    PredictNextConstant(d, step);
  }

  // ---------------------------------------------------------------------------------------------
  // Parsing and the answer

  /** One value of a history: an `i32`, or the `ParseIntError` of the word. */
  function ParseValue(w: string): (r: Result<int>)
    ensures r.Ok? <==> ParseSigned(w, I32_LIMIT).Some?
    ensures r.Ok? ==> ParseSigned(w, I32_LIMIT) == Some(r.value)
    ensures r.Err? ==> IntError(w, true, I32_LIMIT).Some? && r.msg == IntErrorMessage(w, true, I32_LIMIT)
  {
    match ParseSigned(w, I32_LIMIT)
    case Some(v) => Ok(v)
    case None => ParseSignedError(w, I32_LIMIT); Err(IntErrorMessage(w, true, I32_LIMIT))
  }

  /** `History::parse`: the whitespace-separated values of a line. */
  function ParseHistory(line: string): (r: Result<seq<int>>)
    ensures r.Ok? ==> |r.value| == |Words(line)|
  {
    CollectAll(Words(line), ParseValue)
  }

  /** `SensorValues::parse`: one history per line; the first line that fails fails the whole. */
  function ParseSensorValues(input: string): (r: Result<seq<seq<int>>>)
    ensures r.Ok? ==> |r.value| == |Lines(input)|
  {
    CollectAll(Lines(input), ParseHistory)
  }

  /** The predictions of every history. */
  function Predictions(hs: seq<seq<int>>): (ps: seq<int>)
    ensures |ps| == |hs| && forall i :: 0 <= i < |hs| ==> ps[i] == PredictNext(hs[i])
  {
    seq(|hs|, i requires 0 <= i < |hs| => PredictNext(hs[i]))
  }

  /** `value_sums`: the predictions added up. */
  function ValueSums(hs: seq<seq<int>>): int {
    Sum(Predictions(hs))
  }

  /** `day09_1`: the sum of the predictions, cast to `u128` (a negative sum wraps around). */
  function Part1(input: string): (r: Result<nat>)
    ensures r.Ok? <==> ParseSensorValues(input).Ok?
  {
    var hs :- ParseSensorValues(input);
    Ok(AsU128(ValueSums(hs)))
  }

  // ---------------------------------------------------------------------------------------------
  // Round trip

  function SignedDecimals(vs: seq<int>): (ds: seq<string>)
    ensures |ds| == |vs| && forall i :: 0 <= i < |vs| ==> ds[i] == SignedDecimal(vs[i])
  {
    seq(|vs|, i requires 0 <= i < |vs| => SignedDecimal(vs[i]))
  }

  /** A history as the puzzle prints it: its values separated by single spaces. */
  function HistoryText(vs: seq<int>): string {
    Join(SignedDecimals(vs), " ")
  }

  predicate FitsI32(vs: seq<int>) {
    forall i :: 0 <= i < |vs| ==> -(I32_LIMIT as int) <= vs[i] < I32_LIMIT
  }

  /** A printed history parses back to its values. */
  lemma HistoryRoundTrip(vs: seq<int>)
    requires FitsI32(vs)
    ensures ParseHistory(HistoryText(vs)) == Ok(vs)
  {
    var ds := SignedDecimals(vs);
    WordsJoin(ds);
    forall i | 0 <= i < |vs|
      ensures ParseValue(ds[i]) == Ok(vs[i])
    {
      SignedRoundTrip(vs[i], I32_LIMIT);
    }
    var r := CollectAll(ds, ParseValue);
    assert r.Ok? && r.value == vs;
  }

  lemma NoNewlineInHistory(vs: seq<int>)
    ensures '\n' !in HistoryText(vs)
  {
    var ds := SignedDecimals(vs);
    forall i | 0 <= i < |ds|
      ensures '\n' !in ds[i]
    {
      assert forall k :: 0 <= k < |ds[i]| ==> !IsAsciiWhitespace(ds[i][k]);
    }
    JoinExcludes(ds, " ", '\n');
  }

  /** Printed histories, one per line, parse back to the histories. */
  lemma SensorValuesRoundTrip(hs: seq<seq<int>>)
    requires forall i :: 0 <= i < |hs| ==> hs[i] != [] && FitsI32(hs[i])
    ensures ParseSensorValues(Join(seq(|hs|, i requires 0 <= i < |hs| => HistoryText(hs[i])), "\n")) == Ok(hs)
  {
    var lines := seq(|hs|, i requires 0 <= i < |hs| => HistoryText(hs[i]));
    forall i | 0 <= i < |hs|
      ensures lines[i] != [] && '\n' !in lines[i] && ParseHistory(lines[i]) == Ok(hs[i])
    {
      NoNewlineInHistory(hs[i]);
      HistoryRoundTrip(hs[i]);
      assert |SignedDecimals(hs[i])| > 0;
      assert SignedDecimals(hs[i])[0] != [];
      JoinNotEmpty(SignedDecimals(hs[i]), " ");
    }
    LinesOfJoin(lines);
    var r := CollectAll(lines, ParseHistory);
    assert r.Ok? && r.value == hs;
  }

  lemma JoinNotEmpty(pieces: seq<string>, sep: string)
    requires pieces != [] && pieces[0] != []
    ensures Join(pieces, sep) != []
  {
  }

  // ---------------------------------------------------------------------------------------------
  // The unit tests

  /** The first history of the sample, 0 3 6 9 12 15, predicts 18. */
  lemma SampleFirst(s: seq<int>)
    requires |s| == 6 && s[0] == 0 && s[1] == 3 && s[2] == 6 && s[3] == 9 && s[4] == 12 && s[5] == 15
    ensures PredictNext(s) == 18
  {
    PredictNextArithmetic(s, 0, 3);
  }

  /** The second history of the sample, 1 3 6 10 15 21, predicts 28. */
  lemma SampleSecond(s: seq<int>)
    requires |s| == 6 && s[0] == 1 && s[1] == 3 && s[2] == 6 && s[3] == 10 && s[4] == 15 && s[5] == 21
    ensures PredictNext(s) == 28
  {
    var d := Differences(s);
    assert d[0] == 2 && d[1] == 3 && d[2] == 4 && d[3] == 5 && d[4] == 6;
    PredictNextArithmetic(d, 2, 1);
    PredictNextUnfolds(s);
  }

  /** The differences of the third history, 3 3 5 9 15, predict 23. */
  lemma SampleThirdDifferences(d: seq<int>)
    requires |d| == 5 && d[0] == 3 && d[1] == 3 && d[2] == 5 && d[3] == 9 && d[4] == 15
    ensures PredictNext(d) == 23
  {
    var e := Differences(d);
    assert e[0] == 0 && e[1] == 2 && e[2] == 4 && e[3] == 6;
    PredictNextArithmetic(e, 0, 2);
    PredictNextUnfolds(d);
  }

  /** The third history of the sample, 10 13 16 21 30 45, predicts 68. */
  lemma SampleThird(s: seq<int>)
    requires |s| == 6 && s[0] == 10 && s[1] == 13 && s[2] == 16 && s[3] == 21 && s[4] == 30 && s[5] == 45
    ensures PredictNext(s) == 68
  {
    var d := Differences(s);
    assert d[0] == 3 && d[1] == 3 && d[2] == 5 && d[3] == 9 && d[4] == 15;
    SampleThirdDifferences(d);
    PredictNextUnfolds(s);
  }

  /** Three histories add up their three predictions. */
  lemma ValueSumsThree(a: seq<int>, b: seq<int>, c: seq<int>)
    ensures ValueSums([a, b, c]) == PredictNext(a) + PredictNext(b) + PredictNext(c)
  {
    assert Predictions([a, b, c]) == [PredictNext(a), PredictNext(b), PredictNext(c)];
    SumThree(PredictNext(a), PredictNext(b), PredictNext(c));
  }

  /** The sample: 18 + 28 + 68 = 114. */
  lemma SamplePart1()
    ensures ValueSums([[0, 3, 6, 9, 12, 15], [1, 3, 6, 10, 15, 21], [10, 13, 16, 21, 30, 45]]) == 114
  {
    SampleFirst([0, 3, 6, 9, 12, 15]);
    SampleSecond([1, 3, 6, 10, 15, 21]);
    SampleThird([10, 13, 16, 21, 30, 45]);
    ValueSumsThree([0, 3, 6, 9, 12, 15], [1, 3, 6, 10, 15, 21], [10, 13, 16, 21, 30, 45]);
  }
}
