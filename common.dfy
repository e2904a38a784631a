/** The challenge harness: registered `Challenge` records, their identity and order, labels,
    fixture classification and the pass-count summary of a `TestResults`. */
module Common {
  import opened Outcomes
  import opened Text
  import opened Sorting

  /** A solution: the puzzle input in, a number or an error out. */
  type ChallengeFn = string -> Result<nat>

  datatype Challenge = Challenge(
    year: nat,
    day: nat,
    part: nat,
    f: ChallengeFn,
    unitTests: seq<(string, nat)>,
    skip: bool)

  datatype Ordering = Less | Equal | Greater

  datatype UnitTestResult =
    | Equal
    | NotEqual(input: string, expected: nat, got: nat)
    | Other(err: string)

  datatype TestResults = TestResults(challenge: Challenge, results: seq<UnitTestResult>)

  // ---------------------------------------------------------------------------------------------
  // Identity and order

  /** `PartialEq`: two challenges are the same when year, day and part agree. */
  predicate Same(a: Challenge, b: Challenge) {
    a.year == b.year && a.day == b.day && a.part == b.part
  }

  function CmpNat(x: nat, y: nat): Ordering {
    if x < y then Ordering.Less else if x == y then Ordering.Equal else Ordering.Greater
  }

  /** `Ord::cmp`: by year, then day, then part. */
  function Cmp(a: Challenge, b: Challenge): (o: Ordering)
    ensures o == Ordering.Equal <==> Same(a, b)
  {
    match CmpNat(a.year, b.year)
    case Equal =>
      (match CmpNat(a.day, b.day)
       case Equal => CmpNat(a.part, b.part)
       case ord => ord)
    case ord => ord
  }

  /** The sort key: the identity as a lexicographically ordered triple. */
  function Key(c: Challenge): seq<int> {
    [c.year, c.day, c.part]
  }

  lemma CmpMatchesKey(a: Challenge, b: Challenge)
    ensures Cmp(a, b) != Ordering.Greater <==> LexLe(Key(a), Key(b))
    ensures Cmp(a, b) == Ordering.Less <==> LexLess(Key(a), Key(b))
  {
    var ka, kb := Key(a), Key(b);
    assert ka[1..] == [a.day, a.part] && kb[1..] == [b.day, b.part];
    assert ka[1..][1..] == [a.part] && kb[1..][1..] == [b.part];
    assert ka[1..][1..][1..] == [] && kb[1..][1..][1..] == [];
    assert LexLe(ka[1..][1..], kb[1..][1..]) <==> a.part <= b.part;
    assert LexLe(ka[1..], kb[1..]) <==> a.day < b.day || (a.day == b.day && a.part <= b.part);
    assert LexLe(ka, kb) <==> a.year < b.year || (a.year == b.year && LexLe(ka[1..], kb[1..]));
    assert ka == kb <==> Same(a, b);
  }

  lemma CmpAntisymmetric(a: Challenge, b: Challenge)
    ensures Cmp(a, b) == Ordering.Less <==> Cmp(b, a) == Ordering.Greater
  {
  }

  lemma CmpTransitive(a: Challenge, b: Challenge, c: Challenge)
    requires Cmp(a, b) == Ordering.Less && Cmp(b, c) == Ordering.Less
    ensures Cmp(a, c) == Ordering.Less
  {
  }

  // ---------------------------------------------------------------------------------------------
  // Labels

  /** `label`: "{year} :: Day {day:0>2} :: Part {part}". */
  function Label(c: Challenge): (s: string)
    ensures StartsWith(s, Decimal(c.year) + " :: Day ")
  {
    Decimal(c.year) + " :: Day " + PadTwo(Decimal(c.day)) + " :: Part " + Decimal(c.part)
  }

  function ParseNat(s: string): Option<nat> {
    if s != [] && AllDigits(s) then Some(DigitsValue(s)) else None
  }

  /** Reads the identity back out of a label. */
  function ParseLabel(s: string): Option<(nat, nat, nat)> {
    match SplitOnce(s, " :: Day ")
    case None => None
    case Some((y, rest)) =>
      match SplitOnce(rest, " :: Part ")
      case None => None
      case Some((d, p)) =>
        match (ParseNat(y), ParseNat(d), ParseNat(p))
        case (Some(year), Some(day), Some(part)) => Some((year, day, part))
        case _ => None
  }

  lemma NoSpaceInDigits(s: string)
    requires AllDigits(s)
    ensures ' ' !in s
  {
    assert forall k :: 0 <= k < |s| ==> s[k] != ' ';
  }

  lemma PadTwoDigits(s: string)
    requires s != [] && AllDigits(s)
    ensures PadTwo(s) != [] && AllDigits(PadTwo(s)) && DigitsValue(PadTwo(s)) == DigitsValue(s)
  {
    if |s| == 1 {
      DigitsValueLeadingZero(s);
    }
  }

  /** The label identifies the challenge: it decodes to the identity it was made from. */
  lemma {:induction false} LabelRoundTrip(c: Challenge)
    ensures ParseLabel(Label(c)) == Some((c.year, c.day, c.part))
  {
    var y, d, p := Decimal(c.year), PadTwo(Decimal(c.day)), Decimal(c.part);
    PadTwoDigits(Decimal(c.day));
    NoSpaceInDigits(y);
    NoSpaceInDigits(d);
    var rest := d + " :: Part " + p;
    assert Label(c) == y + " :: Day " + rest;
    SplitOnceAt(y, " :: Day ", rest);
    SplitOnceAt(d, " :: Part ", p);
    DecimalValue(c.year);
    DecimalValue(c.day);
    DecimalValue(c.part);
  }

  lemma LabelInjective(a: Challenge, b: Challenge)
    requires Label(a) == Label(b)
    ensures Same(a, b)
  {
    LabelRoundTrip(a);
    LabelRoundTrip(b);
  }

  // ---------------------------------------------------------------------------------------------
  // Fixtures

  /** The outcome of one fixture `(input, expected)` given what the solution returned. */
  function Classify(input: string, expected: nat, got: Result<nat>): (r: UnitTestResult)
    ensures r.Equal? <==> got == Ok(expected)
    ensures r.NotEqual? <==> got.Ok? && got.value != expected
    ensures r.NotEqual? ==> r == NotEqual(input, expected, got.value)
    ensures r.Other? <==> got.Err?
    ensures r.Other? ==> r.err == got.msg
  {
    match got
    case Ok(v) => if expected == v then UnitTestResult.Equal else NotEqual(input, expected, v)
    case Err(e) => Other(e)
  }

  /** `unit_test`: one result per fixture, in fixture order; `skip` is not consulted. */
  function UnitTest(c: Challenge): (t: TestResults)
    ensures t.challenge == c && |t.results| == |c.unitTests|
    ensures forall i :: 0 <= i < |c.unitTests| ==>
      t.results[i] == Classify(c.unitTests[i].0, c.unitTests[i].1, c.f(c.unitTests[i].0))
  {
    TestResults(c, seq(|c.unitTests|, i requires 0 <= i < |c.unitTests| =>
      Classify(c.unitTests[i].0, c.unitTests[i].1, c.f(c.unitTests[i].0))))
  }

  lemma UnitTestEqualIff(c: Challenge, i: nat)
    requires i < |c.unitTests|
    ensures UnitTest(c).results[i].Equal? <==> c.f(c.unitTests[i].0) == Ok(c.unitTests[i].1)
  {
  }

  /** `UnitTestResult::equal`. */
  predicate IsEqual(r: UnitTestResult) {
    r.Equal?
  }

  /** The number of results for which `equal()` holds. */
  function NPassed(rs: seq<UnitTestResult>): (n: nat)
    ensures n <= |rs|
  {
    if rs == [] then 0 else (if IsEqual(rs[0]) then 1 else 0) + NPassed(rs[1..])
  }

  predicate AllPassed(rs: seq<UnitTestResult>) {
    NPassed(rs) == |rs|
  }

  /** All passed exactly when every result is `Equal`; in particular zero fixtures pass. */
  lemma {:induction false} AllPassedIff(rs: seq<UnitTestResult>)
    ensures AllPassed(rs) <==> forall i :: 0 <= i < |rs| ==> rs[i].Equal?
  {
    if rs != [] {
      AllPassedIff(rs[1..]);
      assert forall i :: 1 <= i < |rs| ==> rs[i] == rs[1..][i - 1];
    }
  }

  /** The indices of the failing results, in order. */
  function Failures(rs: seq<UnitTestResult>, from: nat): (fs: seq<nat>)
    requires from <= |rs|
    ensures |fs| == (|rs| - from) - NPassed(rs[from..])
    ensures forall k :: 0 <= k < |fs| ==> from <= fs[k] < |rs| && !rs[fs[k]].Equal?
    decreases |rs| - from
  {
    if from == |rs| then []
    else
      assert rs[from..][1..] == rs[from + 1..];
      (if IsEqual(rs[from]) then [] else [from]) + Failures(rs, from + 1)
  }

  function FailureLine(i: nat, r: UnitTestResult): string {
    var output := match r
      case NotEqual(input, expected, got) =>
        "for input: \n\n" + input + "\n\n---expected " + Decimal(expected) + ", got " + Decimal(got)
      case Other(err) => "Error: " + err
      case Equal => "";
    "\n  " + " Test " + Decimal(i) + " " + " " + output
  }

  function FailureLines(rs: seq<UnitTestResult>, fs: seq<nat>): string
    requires forall k :: 0 <= k < |fs| ==> fs[k] < |rs|
  {
    if fs == [] then [] else FailureLine(fs[0], rs[fs[0]]) + FailureLines(rs, fs[1..])
  }

  const CHECK_MARK: string := " ✔️"
  const CROSS_MARK: string := " ❌"

  /** The text `Display` writes for a `TestResults`, without the terminal colours. */
  function Summary(t: TestResults): (s: string)
    ensures t.challenge.skip ==> s == Label(t.challenge) + " - (skipped)"
    ensures !t.challenge.skip ==>
      StartsWith(s, Label(t.challenge) + " - " + Decimal(NPassed(t.results)) + "/" + Decimal(|t.results|))
    ensures !t.challenge.skip && AllPassed(t.results) ==>
      s == Label(t.challenge) + " - " + Decimal(|t.results|) + "/" + Decimal(|t.results|) + CHECK_MARK
  {
    var head := Label(t.challenge) + " - ";
    if t.challenge.skip then head + "(skipped)"
    else
      var prefix := head + Decimal(NPassed(t.results)) + "/" + Decimal(|t.results|);
      var rest := if NPassed(t.results) == |t.results| then CHECK_MARK
        else CROSS_MARK + FailureLines(t.results, Failures(t.results, 0));
      PrefixOfAppend(prefix, rest);
      prefix + rest
  }

  lemma PrefixOfAppend(p: string, rest: string)
    ensures StartsWith(p + rest, p)
  {
    assert (p + rest)[..|p|] == p;
  }

  /** `idt`: `level` indentation steps of two spaces each. */
  method Idt(level: nat) returns (s: string)
    ensures |s| == 2 * level
    ensures forall k :: 0 <= k < |s| ==> s[k] == ' '
  {
    s := "";
    for i := 0 to level
      invariant |s| == 2 * i
      invariant forall k :: 0 <= k < |s| ==> s[k] == ' '
    {
      s := s + "  ";
    }
  }

  // ---------------------------------------------------------------------------------------------
  // all_challenges

  predicate HasDuplicate(registry: seq<Challenge>) {
    exists i, j :: 0 <= i < j < |registry| && Same(registry[i], registry[j])
  }

  /** The first `n` registered challenges have distinct identities. */
  predicate DistinctUpTo(registry: seq<Challenge>, n: nat)
    requires n <= |registry|
  {
    forall i, j :: 0 <= i < j < n ==> !Same(registry[i], registry[j])
  }

  function Identity(c: Challenge): (nat, nat, nat) {
    (c.year, c.day, c.part)
  }

  function Range(n: nat): (r: seq<nat>)
    ensures |r| == n && forall k :: 0 <= k < n ==> r[k] == k
  {
    if n == 0 then [] else Range(n - 1) + [n - 1]
  }

  /** The position of the first challenge whose identity was registered before it, or `|registry|`. */
  method FirstDuplicate(registry: seq<Challenge>) returns (j: nat)
    ensures j <= |registry| && DistinctUpTo(registry, j)
    ensures j < |registry| ==> exists i :: 0 <= i < j && Same(registry[i], registry[j])
  {
    var seen: set<(nat, nat, nat)> := {};
    j := 0;
    while j < |registry|
      invariant j <= |registry| && DistinctUpTo(registry, j)
      invariant forall x :: x in seen <==> exists i :: 0 <= i < j && Identity(registry[i]) == x
    {
      if Identity(registry[j]) in seen {
        return;
      }
      seen := seen + {Identity(registry[j])};
      j := j + 1;
    }
  }

  /** The registered challenges as indices into `registry` (standing for the `&'static Challenge`s),
      rejecting the first challenge whose identity was already registered, and otherwise sorted. */
  method AllChallenges(registry: seq<Challenge>) returns (r: Result<seq<nat>>)
    ensures r.Err? <==> HasDuplicate(registry)
    ensures r.Err? ==>
      (exists j :: 0 <= j < |registry| && DistinctUpTo(registry, j) &&
        (exists i :: 0 <= i < j && Same(registry[i], registry[j])) &&
        r.msg == "Duplicate definition of: " + Label(registry[j]))
    ensures r.Ok? ==> multiset(r.value) == multiset(Range(|registry|))
    ensures r.Ok? ==> forall k :: 0 <= k < |r.value| ==> r.value[k] < |registry|
    ensures r.Ok? ==> forall i, j :: 0 <= i < j < |r.value| ==>
      r.value[i] < |registry| && r.value[j] < |registry| &&
      Cmp(registry[r.value[i]], registry[r.value[j]]) == Ordering.Less
  {
    var j := FirstDuplicate(registry);
    if j < |registry| {
      return Err("Duplicate definition of: " + Label(registry[j]));
    }
    var key := (k: nat) => if k < |registry| then Key(registry[k]) else [];
    var res := new nat[|registry|](k => k);
    assert res[..] == Range(|registry|);
    SortInPlace(res, key);
    r := Ok(res[..]);
    SortedStrict(registry, res[..], key);
    RangePermutation(res[..], |registry|);
  }

  lemma SortedStrict(registry: seq<Challenge>, s: seq<nat>, key: nat -> seq<int>)
    requires DistinctUpTo(registry, |registry|)
    requires forall k: nat :: k < |registry| ==> key(k) == Key(registry[k])
    requires multiset(s) == multiset(Range(|registry|)) && SortedBy(s, key)
    ensures forall i, j :: 0 <= i < j < |s| ==>
      s[i] < |registry| && s[j] < |registry| && Cmp(registry[s[i]], registry[s[j]]) == Ordering.Less
  {
    RangePermutation(s, |registry|);
    forall i, j | 0 <= i < j < |s|
      ensures Cmp(registry[s[i]], registry[s[j]]) == Ordering.Less
    {
      assert LexLe(key(s[i]), key(s[j]));
      CmpMatchesKey(registry[s[i]], registry[s[j]]);
      if s[i] < s[j] {
        assert !Same(registry[s[i]], registry[s[j]]);
      } else {
        assert !Same(registry[s[j]], registry[s[i]]);
      }
    }
  }

  /** A rearrangement of `0..n` holds each index below `n` exactly once. */
  lemma RangePermutation(s: seq<nat>, n: nat)
    requires multiset(s) == multiset(Range(n))
    ensures forall i :: 0 <= i < |s| ==> s[i] < n
    ensures forall i, j :: 0 <= i < j < |s| ==> s[i] != s[j]
  {
    forall i | 0 <= i < |s|
      ensures s[i] < n
    {
      assert s[i] in multiset(Range(n));
    }
    forall i, j | 0 <= i < j < |s|
      ensures s[i] != s[j]
    {
      if s[i] == s[j] {
        TwoOccurrences(s, i, j);
        RangeOnce(n, s[i]);
      }
    }
  }

  lemma TwoOccurrences<T>(s: seq<T>, i: nat, j: nat)
    requires i < j < |s| && s[i] == s[j]
    ensures multiset(s)[s[i]] >= 2
  {
    assert s == s[..j] + [s[j]] + s[j + 1..];
    assert s[..j][i] == s[i];
    assert s[i] in multiset(s[..j]);
  }

  lemma {:induction false} RangeOnce(n: nat, k: nat)
    ensures multiset(Range(n))[k] <= 1
  {
    if n > 0 {
      var r := Range(n - 1);
      RangeOnce(n - 1, k);
      assert Range(n) == r + [n - 1];
      assert multiset(Range(n)) == multiset(r) + multiset([n - 1]);
      if k == n - 1 {
        assert k !in r;
      }
    }
  }
}
