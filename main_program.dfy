/** The program's entry point: select challenges by year and day, run their fixtures, and unless
    only the fixtures were asked for, run each selected challenge on its puzzle input. */
module MainProgram {
  import opened Outcomes
  import opened Text
  import opened Common

  /** The command-line arguments. */
  datatype Args = Args(testOnly: bool, year: Option<nat>, day: Option<nat>)

  /** The filter closure: a given year or day must match. */
  predicate Keep(args: Args, c: Challenge) {
    (args.year.None? || args.year.value == c.year) && (args.day.None? || args.day.value == c.day)
  }

  /** `filter` over the sorted challenge indices. */
  function Select(registry: seq<Challenge>, order: seq<nat>, args: Args): (r: seq<nat>)
    requires forall k :: 0 <= k < |order| ==> order[k] < |registry|
    ensures |r| <= |order|
    ensures forall k :: 0 <= k < |r| ==> r[k] in order && r[k] < |registry| && Keep(args, registry[r[k]])
    ensures forall k :: 0 <= k < |order| && Keep(args, registry[order[k]]) ==> order[k] in r
  {
    if order == [] then []
    else (if Keep(args, registry[order[0]]) then [order[0]] else []) + Select(registry, order[1..], args)
  }

  predicate StrictlyAscending(registry: seq<Challenge>, s: seq<nat>) {
    forall i, j :: 0 <= i < j < |s| ==>
      s[i] < |registry| && s[j] < |registry| && Cmp(registry[s[i]], registry[s[j]]) == Ordering.Less
  }

  /** Filtering keeps the sorted order. */
  lemma {:induction false} SelectKeepsOrder(registry: seq<Challenge>, order: seq<nat>, args: Args)
    requires forall k :: 0 <= k < |order| ==> order[k] < |registry|
    requires StrictlyAscending(registry, order)
    ensures StrictlyAscending(registry, Select(registry, order, args))
  {
    if order != [] {
      var rest := order[1..];
      assert forall k :: 0 <= k < |rest| ==> rest[k] == order[k + 1];
      SelectKeepsOrder(registry, rest, args);
      var tail := Select(registry, rest, args);
      if Keep(args, registry[order[0]]) {
        forall k | 0 <= k < |tail|
          ensures Cmp(registry[order[0]], registry[tail[k]]) == Ordering.Less
        {
          var m :| 0 <= m < |rest| && rest[m] == tail[k];
          assert order[m + 1] == tail[k];
        }
        AscendingCons(registry, order[0], tail);
      }
    }
  }

  /** An element below every element of an ascending list can go in front of it. */
  lemma AscendingCons(registry: seq<Challenge>, x: nat, tail: seq<nat>)
    requires x < |registry| && StrictlyAscending(registry, tail)
    requires forall k :: 0 <= k < |tail| ==> tail[k] < |registry| && Cmp(registry[x], registry[tail[k]]) == Ordering.Less
    ensures StrictlyAscending(registry, [x] + tail)
  {
    var s := [x] + tail;
    forall i, j | 0 <= i < j < |s|
      ensures s[i] < |registry| && s[j] < |registry| && Cmp(registry[s[i]], registry[s[j]]) == Ordering.Less
    {
      assert s[j] == tail[j - 1];
      if i > 0 {
        assert s[i] == tail[i - 1];
      }
    }
  }

  /** The input file of a challenge. */
  function InputPath(c: Challenge): string {
    "./inputs/" + Decimal(c.year) + "/" + PadTwo(Decimal(c.day)) + ".txt"
  }

  /** What a successful run produced. */
  datatype Outcome =
    | NoChallenges
    | TestedOnly(tests: seq<TestResults>)
    | Ran(tests: seq<TestResults>, runs: seq<Result<nat>>)

  /** The puzzle input of the k-th selected challenge. */
  function InputOf(registry: seq<Challenge>, selected: seq<nat>, read: string -> Result<string>, k: nat): Result<string>
    requires k < |selected| && selected[k] < |registry|
  {
    read(InputPath(registry[selected[k]]))
  }

  predicate Indices(registry: seq<Challenge>, selected: seq<nat>) {
    forall k :: 0 <= k < |selected| ==> selected[k] < |registry|
  }

  /** The `k`-th read is the first that fails, and fails with `msg`. */
  predicate FirstFailedRead(registry: seq<Challenge>, selected: seq<nat>, read: string -> Result<string>, k: nat, msg: string)
    requires Indices(registry, selected)
  {
    k < |selected| && InputOf(registry, selected, read, k) == Err(msg) &&
    forall m :: 0 <= m < k ==> InputOf(registry, selected, read, m).Ok?
  }

  /** The real runs: each selected challenge on its input, in order; the first failed read aborts. */
  method RunInputs(registry: seq<Challenge>, selected: seq<nat>, read: string -> Result<string>)
    returns (r: Result<seq<Result<nat>>>)
    requires Indices(registry, selected)
    ensures r.Err? <==> exists k :: 0 <= k < |selected| && InputOf(registry, selected, read, k).Err?
    ensures r.Err? ==> exists k :: FirstFailedRead(registry, selected, read, k, r.msg)
    ensures r.Ok? ==> |r.value| == |selected| && forall k :: 0 <= k < |selected| ==>
      r.value[k] == registry[selected[k]].f(InputOf(registry, selected, read, k).value)
  {
    var runs: seq<Result<nat>> := [];
    for k := 0 to |selected|
      invariant |runs| == k && RanInOrder(registry, selected, read, runs)
    {
      var input := InputOf(registry, selected, read, k);
      if input.Err? {
        assert FirstFailedRead(registry, selected, read, k, input.msg);
        return Err(input.msg);
      }
      var run := registry[selected[k]].f(input.value);
      RanOneMore(registry, selected, read, runs);
      runs := runs + [run];
    }
    return Ok(runs);
  }

  /** `runs` are the results of the first selected challenges on their inputs, all read. */
  predicate RanInOrder(registry: seq<Challenge>, selected: seq<nat>, read: string -> Result<string>, runs: seq<Result<nat>>)
    requires Indices(registry, selected)
  {
    |runs| <= |selected| && forall m :: 0 <= m < |runs| ==>
      InputOf(registry, selected, read, m).Ok? &&
      runs[m] == registry[selected[m]].f(InputOf(registry, selected, read, m).value)
  }

  lemma RanOneMore(registry: seq<Challenge>, selected: seq<nat>, read: string -> Result<string>, runs: seq<Result<nat>>)
    requires Indices(registry, selected) && RanInOrder(registry, selected, read, runs) && |runs| < |selected|
    requires InputOf(registry, selected, read, |runs|).Ok?
    ensures RanInOrder(registry, selected, read,
      runs + [registry[selected[|runs|]].f(InputOf(registry, selected, read, |runs|).value)])
  {
  }

  /** `main`, with the file system as `read`, run sequentially in challenge order. Rayon's `collect`
      into a `Result` is modelled as reporting the first failed read. */
  method Run(registry: seq<Challenge>, args: Args, read: string -> Result<string>)
    returns (r: Result<Outcome>, selected: seq<nat>)
    ensures Indices(registry, selected)
    ensures HasDuplicate(registry) ==> r.Err?
    ensures !HasDuplicate(registry) ==>
      (forall k :: 0 <= k < |selected| ==> Keep(args, registry[selected[k]])) &&
      (forall i :: 0 <= i < |registry| && Keep(args, registry[i]) ==> i in selected) &&
      StrictlyAscending(registry, selected)
    ensures r.Err? && !HasDuplicate(registry) ==>
      !args.testOnly && exists k :: 0 <= k < |selected| && InputOf(registry, selected, read, k).Err?
    ensures r.Ok? && r.value.NoChallenges? <==> r.Ok? && selected == []
    ensures r.Ok? && r.value.TestedOnly? <==> r.Ok? && selected != [] && args.testOnly
    ensures r.Ok? && !r.value.NoChallenges? ==>
      |r.value.tests| == |selected| &&
      forall k :: 0 <= k < |selected| ==> r.value.tests[k] == UnitTest(registry[selected[k]])
    ensures r.Ok? && r.value.Ran? ==>
      |r.value.runs| == |selected| && forall k :: 0 <= k < |selected| ==>
        InputOf(registry, selected, read, k).Ok? &&
        r.value.runs[k] == registry[selected[k]].f(InputOf(registry, selected, read, k).value)
  {
    selected := [];
    var all := AllChallenges(registry);
    if all.Err? {
      return Err(all.msg), selected;
    }
    selected := Select(registry, all.value, args);
    SelectKeepsOrder(registry, all.value, args);
    forall i | 0 <= i < |registry| && Keep(args, registry[i])
      ensures i in selected
    {
      assert Range(|registry|)[i] == i;
      assert i in multiset(all.value);
      var k :| 0 <= k < |all.value| && all.value[k] == i;
    }
    if |selected| == 0 {
      return Ok(NoChallenges), selected;
    }
    var tests := seq(|selected|, k requires 0 <= k < |selected| => UnitTest(registry[selected[k]]));
    if args.testOnly {
      return Ok(TestedOnly(tests)), selected;
    }
    var runs := RunInputs(registry, selected, read);
    if runs.Err? {
      return Err(runs.msg), selected;
    }
    return Ok(Ran(tests, runs.value)), selected;
  }
}
