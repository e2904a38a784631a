/** 2023 day 6: boat races. Holding the button for `h` of a race's `time` milliseconds makes the
    boat travel `h * (time - h)`; a hold wins when that beats the record `distance`. */
module Y2023Day06 {
  import opened Outcomes
  import opened Text
  import opened Numbers

  datatype Race = Race(time: nat, distance: nat)

  // ---------------------------------------------------------------------------------------------
  // Ways to win

  /** Holding for `hold` milliseconds beats the record. */
  predicate Wins(r: Race, hold: int) {
    hold * (r.time - hold) > r.distance
  }

  /** The number of winning holds below `n`. */
  function CountWins(r: Race, n: nat): (c: nat)
    ensures c <= n
  {
    if n == 0 then 0 else CountWins(r, n - 1) + (if Wins(r, n - 1) then 1 else 0)
  }

  /** `Race::ways_to_win`: the holds in `0..time` that win, counted. */
  function WaysToWin(r: Race): (w: nat)
    ensures w <= r.time
  {
    CountWins(r, r.time)
  }

  /** The count is the size of the set of winning holds. */
  lemma {:induction false} CountWinsIsSetSize(r: Race, n: nat)
    ensures CountWins(r, n) == |set h | 0 <= h < n && Wins(r, h)|
  {
    var all := set h | 0 <= h < n && Wins(r, h);
    if n > 0 {
      CountWinsIsSetSize(r, n - 1);
      var before := set h | 0 <= h < n - 1 && Wins(r, h);
      if Wins(r, n - 1) {
        assert all == before + {n - 1};
      } else {
        assert all == before;
      }
    }
  }

  lemma WaysToWinIsSetSize(r: Race)
    ensures WaysToWin(r) == |set h | 0 <= h < r.time && Wins(r, h)|
  {
    CountWinsIsSetSize(r, r.time);
  }

  /** The distance grows with the hold up to half the time: the product identity behind it. */
  lemma ProductGap(t: int, a: int, b: int)
    ensures b * (t - b) - a * (t - a) == (b - a) * (t - a - b)
  {
  }

  lemma MulNonNegative(a: int, b: int)
    requires a >= 0 && b >= 0
    ensures a * b >= 0
  {
  }

  /** A hold and its complement to the race time go equally far. */
  lemma Mirror(t: int, h: int)
    ensures (t - h) * (t - (t - h)) == h * (t - h)
  {
  }

  /** When `lo` is the least winning hold and lies in the first half, the winning holds are exactly
      those from `lo` to `time - lo`. */
  lemma WinsBetween(r: Race, lo: nat, h: int)
    requires 2 * lo <= r.time && Wins(r, lo) && (lo == 0 || !Wins(r, lo - 1))
    requires 0 <= h < r.time
    ensures Wins(r, h) <==> lo <= h <= r.time - lo
  {
    var t, d := r.time, r.distance;
    assert lo * (t - lo) > d;
    if lo <= h <= t - lo {
      ProductGap(t, lo, h);
      MulNonNegative(h - lo, t - lo - h);
      assert h * (t - h) >= lo * (t - lo);
    } else {
      assert lo != 0;
      assert (lo - 1) * (t - (lo - 1)) <= d;
      var g := if h < lo then h else t - h;
      Mirror(t, h);
      assert g * (t - g) == h * (t - h);
      assert 0 <= g <= lo - 1;
      ProductGap(t, g, lo - 1);
      MulNonNegative(lo - 1 - g, t - g - (lo - 1));
      assert g * (t - g) <= (lo - 1) * (t - (lo - 1));
    }
  }

  /** The winning holds below `n` are those of `lo..=time-lo` below `n`. */
  lemma {:induction false} CountWinsInterval(r: Race, lo: nat, n: nat)
    requires 2 * lo <= r.time && Wins(r, lo) && (lo == 0 || !Wins(r, lo - 1))
    requires n <= r.time
    ensures CountWins(r, n) == if n <= lo then 0 else (if n < r.time - lo + 1 then n else r.time - lo + 1) - lo
  {
    if n > 0 {
      CountWinsInterval(r, lo, n - 1);
      WinsBetween(r, lo, n - 1);
    }
  }

  /** The closed form: with `lo` the least winning hold, there are `time + 1 - 2 * lo` ways. */
  lemma WaysToWinClosedForm(r: Race, lo: nat)
    requires 2 * lo <= r.time && Wins(r, lo) && (lo == 0 || !Wins(r, lo - 1))
    ensures WaysToWin(r) == r.time + 1 - 2 * lo
  {
    CountWinsInterval(r, lo, r.time);
  }

  /** `ways_to_win_multiplied`: the product of the ways of every race, 1 for no race. */
  function WaysMultiplied(races: seq<Race>): (p: nat)
    ensures races == [] ==> p == 1
    ensures (exists k :: 0 <= k < |races| && WaysToWin(races[k]) == 0) ==> p == 0
  {
    if races == [] then 1
    else
      var init := races[..|races| - 1];
      assert forall k :: 0 <= k < |init| ==> init[k] == races[k];
      WaysMultiplied(init) * WaysToWin(races[|races| - 1])
  }

  lemma WaysMultipliedAppend(races: seq<Race>, r: Race)
    ensures WaysMultiplied(races + [r]) == WaysMultiplied(races) * WaysToWin(r)
  {
    assert (races + [r])[..|races|] == races;
  }

  // ---------------------------------------------------------------------------------------------
  // Parsing

  /** `v.parse::<u64>().unwrap()`. */
  function ParseU64(w: string): (r: Result<nat>)
    ensures r.Ok? <==> ParseUnsigned(w, U64_LIMIT).Some?
    ensures r.Ok? ==> r.value == ParseUnsigned(w, U64_LIMIT).value
    ensures r.Err? ==> IntError(w, false, U64_LIMIT).Some? && r.msg == UnwrapIntError(w, false, U64_LIMIT)
  {
    match ParseUnsigned(w, U64_LIMIT)
    case Some(v) => Ok(v)
    case None => ParseUnsignedError(w, U64_LIMIT); Err(UnwrapIntError(w, false, U64_LIMIT))
  }

  function Min(a: nat, b: nat): nat { if a < b then a else b }

  /** The lazy `zip` of the parsed times with the parsed distances: a time is parsed before its
      distance, and the pairing stops at the first missing word. */
  function ZipRaces(ts: seq<string>, ds: seq<string>): (r: Result<seq<Race>>)
    ensures r.Ok? ==> |r.value| == Min(|ts|, |ds|)
  {
    if ts == [] then Ok([])
    else
      var t :- ParseU64(ts[0]);
      if ds == [] then Ok([])
      else
        var d :- ParseU64(ds[0]);
        var rest :- ZipRaces(ts[1..], ds[1..]);
        Ok([Race(t, d)] + rest)
  }

  /** The zip fails exactly when a word it reaches does not parse: every time up to one past the
      last distance, and every distance that has a time. */
  lemma {:induction false} ZipRacesOk(ts: seq<string>, ds: seq<string>)
    ensures ZipRaces(ts, ds).Ok? <==>
      (forall k :: 0 <= k < |ts| && k <= |ds| ==> ParseU64(ts[k]).Ok?) &&
      (forall k :: 0 <= k < |ts| && k < |ds| ==> ParseU64(ds[k]).Ok?)
  {
    if ts != [] && ds != [] {
      ZipRacesOk(ts[1..], ds[1..]);
      assert forall k :: 0 < k < |ts| ==> ts[1..][k - 1] == ts[k];
      assert forall k :: 0 < k < |ds| ==> ds[1..][k - 1] == ds[k];
    }
  }

  /** Otherwise the k-th race pairs the k-th time with the k-th distance. */
  lemma {:induction false} ZipRacesPairs(ts: seq<string>, ds: seq<string>)
    requires ZipRaces(ts, ds).Ok?
    ensures forall k :: 0 <= k < |ZipRaces(ts, ds).value| ==>
      ParseU64(ts[k]) == Ok(ZipRaces(ts, ds).value[k].time) && ParseU64(ds[k]) == Ok(ZipRaces(ts, ds).value[k].distance)
  {
    if ts != [] && ds != [] {
      var rest := ZipRaces(ts[1..], ds[1..]);
      assert rest.Ok?;
      ZipRacesPairs(ts[1..], ds[1..]);
      var r := ZipRaces(ts, ds).value;
      assert r == [Race(ParseU64(ts[0]).value, ParseU64(ds[0]).value)] + rest.value;
      forall k | 0 < k < |r|
        ensures ParseU64(ts[k]) == Ok(r[k].time) && ParseU64(ds[k]) == Ok(r[k].distance)
      {
        assert r[k] == rest.value[k - 1];
        assert ts[1..][k - 1] == ts[k] && ds[1..][k - 1] == ds[k];
      }
    }
  }

  /** `RaceList::parse`: the first line holds the times after "Time:", the rest the distances after
      "Distance:"; the k-th time races against the k-th distance. */
  function ParseRaces(input: string): (r: Result<seq<Race>>)
    ensures SplitOnce(input, "\n").None? ==> r == Err(UNWRAP_NONE)
  {
    match SplitOnce(input, "\n")
    case None => Err(UNWRAP_NONE)
    case Some((lineTime, lineDistance)) => ParseRaceLines(lineTime, lineDistance)
  }

  /** The two lines of `RaceList::parse`, each stripped of its label, trimmed and split into words. */
  function ParseRaceLines(lineTime: string, lineDistance: string): (r: Result<seq<Race>>)
    ensures StripPrefix(lineTime, "Time:").None? ==> r == Err(UNWRAP_NONE)
    ensures StripPrefix(lineTime, "Time:").Some? && StripPrefix(lineDistance, "Distance:").None? ==> r == Err(UNWRAP_NONE)
  {
    match StripPrefix(lineTime, "Time:")
    case None => Err(UNWRAP_NONE)
    case Some(times) =>
      match StripPrefix(lineDistance, "Distance:")
      case None => Err(UNWRAP_NONE)
      case Some(distances) => ZipRaces(Words(Trim(times)), Words(Trim(distances)))
  }

  /** `RaceList::parse_2`: the spaces are removed from each line, leaving one race. */
  function ParseOneRace(input: string): (r: Result<seq<Race>>)
    ensures r.Ok? ==> |r.value| == 1
  {
    match SplitOnce(input, "\n")
    case None => Err(UNWRAP_NONE)
    case Some((lineTime, lineDistance)) =>
      match StripPrefix(lineTime, "Time:")
      case None => Err(UNWRAP_NONE)
      case Some(times) =>
        var time :- ParseU64(ReplaceChar(times, ' ', ""));
        match StripPrefix(lineDistance, "Distance:")
        case None => Err(UNWRAP_NONE)
        case Some(distances) =>
          var distance :- ParseU64(ReplaceChar(distances, ' ', ""));
          Ok([Race(time, distance)])
  }

  /** `day06_1`. */
  function Part1(input: string): (r: Result<nat>)
    ensures ParseRaces(input).Err? ==> r == Err(ParseRaces(input).msg)
    ensures ParseRaces(input) == Ok([]) ==> r == Ok(1)
    ensures ParseRaces(input).Ok? && (exists k :: 0 <= k < |ParseRaces(input).value| && WaysToWin(ParseRaces(input).value[k]) == 0) ==> r == Ok(0)
  {
    var races :- ParseRaces(input);
    Ok(WaysMultiplied(races))
  }

  /** `day06_2`. */
  function Part2(input: string): (r: Result<nat>)
    ensures ParseOneRace(input).Err? ==> r == Err(ParseOneRace(input).msg)
    ensures ParseOneRace(input).Ok? ==> r == Ok(WaysToWin(ParseOneRace(input).value[0]))
  {
    var races :- ParseOneRace(input);
    assert WaysMultiplied(races) == WaysMultiplied(races[..0]) * WaysToWin(races[0]) && races[..0] == [];
    Ok(WaysMultiplied(races))
  }

  // ---------------------------------------------------------------------------------------------
  // Round trips

  /** A single race as the puzzle prints it. */
  function RaceText(r: Race): string {
    "Time: " + Decimal(r.time) + "\nDistance: " + Decimal(r.distance)
  }

  lemma TrimDigits(d: string)
    requires d != [] && AllDigits(d)
    ensures Trim(" " + d) == d
  {
    TrimAfterSpace(d);
  }

  lemma DigitsAreWord(d: string)
    requires d != [] && AllDigits(d)
    ensures Words(d) == [d]
  {
    assert forall k :: 0 <= k < |d| ==> !IsAsciiWhitespace(d[k]);
    WordsOfWord(d);
  }

  lemma RemoveSpaceBeforeDigits(d: string)
    requires AllDigits(d)
    ensures ReplaceChar(" " + d, ' ', "") == d
  {
    NoSpaceLeft(d);
    assert (" " + d)[1..] == d;
  }

  lemma {:induction false} NoSpaceLeft(d: string)
    requires AllDigits(d)
    ensures ReplaceChar(d, ' ', "") == d
  {
    if d != [] {
      NoSpaceLeft(d[1..]);
      assert d == [d[0]] + d[1..];
    }
  }

  /** The printed race splits into its two labelled lines. */
  lemma RaceTextLines(r: Race)
    ensures SplitOnce(RaceText(r), "\n") == Some(("Time: " + Decimal(r.time), "Distance: " + Decimal(r.distance)))
    ensures StripPrefix("Time: " + Decimal(r.time), "Time:") == Some(" " + Decimal(r.time))
    ensures StripPrefix("Distance: " + Decimal(r.distance), "Distance:") == Some(" " + Decimal(r.distance))
  {
    var t, d := Decimal(r.time), Decimal(r.distance);
    NotInDigits(t, '\n');
    assert RaceText(r) == "Time: " + t + "\n" + ("Distance: " + d);
    SplitOnceAt("Time: " + t, "\n", "Distance: " + d);
    assert ("Time: " + t)[..5] == "Time:" && ("Time: " + t)[5..] == " " + t;
    assert ("Distance: " + d)[..9] == "Distance:" && ("Distance: " + d)[9..] == " " + d;
  }

  /** A number after a space is the one word of the trimmed text, and parses back. */
  lemma PaddedNumber(n: nat)
    requires n < U64_LIMIT
    ensures Words(Trim(" " + Decimal(n))) == [Decimal(n)]
    ensures ParseU64(Decimal(n)) == Ok(n)
  {
    TrimDigits(Decimal(n));
    DigitsAreWord(Decimal(n));
    DecimalRoundTrip(n, U64_LIMIT);
  }

  lemma ZipOne(t: string, d: string, r: Race)
    requires ParseU64(t) == Ok(r.time) && ParseU64(d) == Ok(r.distance)
    ensures ZipRaces([t], [d]) == Ok([r])
  {
    assert [t][0] == t && [t][1..] == [] && [d][0] == d && [d][1..] == [];
    assert ZipRaces([], []) == Ok([]);
    assert [Race(r.time, r.distance)] + [] == [r];
  }

  /** A time and a distance, each after its label and a space, parse to one race. */
  lemma RaceLinesRoundTrip(r: Race)
    requires r.time < U64_LIMIT && r.distance < U64_LIMIT
    requires StripPrefix("Time: " + Decimal(r.time), "Time:") == Some(" " + Decimal(r.time))
    requires StripPrefix("Distance: " + Decimal(r.distance), "Distance:") == Some(" " + Decimal(r.distance))
    ensures ParseRaceLines("Time: " + Decimal(r.time), "Distance: " + Decimal(r.distance)) == Ok([r])
  {
    PaddedNumber(r.time);
    PaddedNumber(r.distance);
    ZipOne(Decimal(r.time), Decimal(r.distance), r);
  }

  /** `RaceList::parse` reads a printed race back. */
  lemma RaceRoundTrip(r: Race)
    requires r.time < U64_LIMIT && r.distance < U64_LIMIT
    ensures ParseRaces(RaceText(r)) == Ok([r])
  {
    RaceTextLines(r);
    RaceLinesRoundTrip(r);
  }

  /** So does `RaceList::parse_2`. */
  lemma OneRaceRoundTrip(r: Race)
    requires r.time < U64_LIMIT && r.distance < U64_LIMIT
    ensures ParseOneRace(RaceText(r)) == Ok([r])
  {
    var t, d := Decimal(r.time), Decimal(r.distance);
    RaceTextLines(r);
    DecimalRoundTrip(r.time, U64_LIMIT);
    DecimalRoundTrip(r.distance, U64_LIMIT);
    RemoveSpaceBeforeDigits(t);
    RemoveSpaceBeforeDigits(d);
  }

  // ---------------------------------------------------------------------------------------------
  // The unit tests

  /** The three races of the sample have 4, 8 and 9 ways to win. */
  lemma SampleRaces()
    ensures WaysToWin(Race(7, 9)) == 4
    ensures WaysToWin(Race(15, 40)) == 8
    ensures WaysToWin(Race(30, 200)) == 9
  {
    WaysToWinClosedForm(Race(7, 9), 2);
    WaysToWinClosedForm(Race(15, 40), 4);
    WaysToWinClosedForm(Race(30, 200), 11);
  }

  lemma SingleRace(r: Race)
    requires r.time < U64_LIMIT && r.distance < U64_LIMIT
    ensures Part1(RaceText(r)) == Ok(WaysToWin(r))
  {
    RaceRoundTrip(r);
    OneRaceMultiplied(r);
  }

  lemma OneRaceMultiplied(r: Race)
    ensures WaysMultiplied([r]) == WaysToWin(r)
  {
    WaysMultipliedAppend([], r);
    assert [] + [r] == [r];
  }

  /** The first three unit tests, one race each. */
  lemma SampleSingleRaces()
    ensures Part1(RaceText(Race(7, 9))) == Ok(4)
    ensures Part1(RaceText(Race(15, 40))) == Ok(8)
    ensures Part1(RaceText(Race(30, 200))) == Ok(9)
  {
    SampleRaces();
    SingleRace(Race(7, 9));
    SingleRace(Race(15, 40));
    SingleRace(Race(30, 200));
  }

  /** The whole sample: 4 * 8 * 9 = 288 ways. */
  lemma SamplePart1()
    ensures WaysMultiplied([Race(7, 9), Race(15, 40), Race(30, 200)]) == 288
  {
    SampleRaces();
    WaysMultipliedAppend([], Race(7, 9));
    WaysMultipliedAppend([Race(7, 9)], Race(15, 40));
    WaysMultipliedAppend([Race(7, 9), Race(15, 40)], Race(30, 200));
  }

  /** Part two reads the sample as one race of 71530 ms and a record of 940200 mm: 71503 ways. */
  lemma SamplePart2()
    ensures WaysMultiplied([Race(71530, 940200)]) == 71503
  {
    WaysToWinClosedForm(Race(71530, 940200), 14);
    OneRaceMultiplied(Race(71530, 940200));
  }
}
