/** 2023 day 5: an almanac of maps. Each map is a list of ranges that shift the numbers they
    hold by a fixed offset; a seed goes through every map in turn to its location. Part two
    searches the locations upwards for the first one that maps back into a seed range. */
module Y2023Day05 {
  import opened Outcomes
  import opened Text
  import opened Sorting
  import opened Numbers

  const I64_MAX: int := I64_LIMIT - 1

  predicate InI64(x: int) { -(I64_LIMIT as int) <= x < I64_LIMIT }

  // ---------------------------------------------------------------------------------------------
  // Ranges

  datatype MapRange = MapRange(dest: int, start: int, len: int)

  /** `MapRange::run`: a number in `[start, start + len)` keeps its offset from `start`, counted from `dest`. */
  function RangeRun(r: MapRange, v: int): (o: Option<int>)
    ensures o.Some? <==> r.start <= v < r.start + r.len
    ensures o.Some? ==> o.value - r.dest == v - r.start
  {
    if v < r.start || v >= r.start + r.len then None else Some(v - (r.start - r.dest))
  }

  /** `MapRange::run_backwards`: the same shift read from the destination side. */
  function RangeRunBackwards(r: MapRange, v: int): (o: Option<int>)
    ensures o.Some? <==> r.dest <= v < r.dest + r.len
    ensures o.Some? ==> o.value - r.start == v - r.dest
  {
    if v < r.dest || v >= r.dest + r.len then None else Some(v - (r.dest - r.start))
  }

  /** Running a range backwards undoes running it forwards, and the other way round. */
  lemma RangeRoundTrip(r: MapRange, v: int)
    ensures RangeRun(r, v).Some? ==> RangeRunBackwards(r, RangeRun(r, v).value) == Some(v)
    ensures RangeRunBackwards(r, v).Some? ==> RangeRun(r, RangeRunBackwards(r, v).value) == Some(v)
  {
  }

  function RangeStep(r: MapRange, v: int, backwards: bool): Option<int> {
    if backwards then RangeRunBackwards(r, v) else RangeRun(r, v)
  }

  /** The image of `v` under the ranges from index `i` on: the first one that holds `v` maps it,
      and with none `v` passes through. */
  function FirstFrom(rs: seq<MapRange>, i: nat, v: int, backwards: bool): int
    requires i <= |rs|
    decreases |rs| - i
  {
    if i == |rs| then v
    else match RangeStep(rs[i], v, backwards)
      case Some(w) => w
      case None => FirstFrom(rs, i + 1, v, backwards)
  }

  /** The first range that holds `v` decides its image. */
  lemma {:induction false} FirstHit(rs: seq<MapRange>, i: nat, j: nat, v: int, backwards: bool)
    requires j <= i < |rs| && RangeStep(rs[i], v, backwards).Some?
    requires forall k :: j <= k < i ==> RangeStep(rs[k], v, backwards).None?
    ensures FirstFrom(rs, j, v, backwards) == RangeStep(rs[i], v, backwards).value
    decreases i - j
  {
    if j < i {
      FirstHit(rs, i, j + 1, v, backwards);
    }
  }

  /** A number that no range holds passes through unchanged. */
  lemma {:induction false} FirstMiss(rs: seq<MapRange>, j: nat, v: int, backwards: bool)
    requires j <= |rs| && forall k :: j <= k < |rs| ==> RangeStep(rs[k], v, backwards).None?
    ensures FirstFrom(rs, j, v, backwards) == v
    decreases |rs| - j
  {
    if j < |rs| {
      FirstMiss(rs, j + 1, v, backwards);
    }
  }

  /** The index of the first range that holds `v`, when there is one. */
  lemma FirstHitAt(rs: seq<MapRange>, v: int, backwards: bool) returns (i: nat)
    requires exists k :: 0 <= k < |rs| && RangeStep(rs[k], v, backwards).Some?
    ensures i < |rs| && RangeStep(rs[i], v, backwards).Some?
    ensures forall k :: 0 <= k < i ==> RangeStep(rs[k], v, backwards).None?
  {
    i := 0;
    while RangeStep(rs[i], v, backwards).None?
      invariant i < |rs| && forall k :: 0 <= k < i ==> RangeStep(rs[k], v, backwards).None?
      invariant exists k :: i <= k < |rs| && RangeStep(rs[k], v, backwards).Some?
      decreases |rs| - i
    {
      i := i + 1;
    }
  }

  // ---------------------------------------------------------------------------------------------
  // Maps

  /** A map keeps its ranges twice: ordered by start for `run`, by destination for `run_backwards`. */
  datatype Map = Map(from: string, to: string, ranges: seq<MapRange>, backwards: seq<MapRange>)

  function StartKey(r: MapRange): seq<int> { [r.start] }
  function DestKey(r: MapRange): seq<int> { [r.dest] }

  /** The map built from ranges listed in any order. */
  function MapOf(from: string, to: string, ranges: seq<MapRange>): (m: Map)
    ensures SortedBy(m.ranges, StartKey) && multiset(m.ranges) == multiset(ranges)
    ensures SortedBy(m.backwards, DestKey) && multiset(m.backwards) == multiset(ranges)
  {
    Map(from, to, SortByKey(ranges, StartKey), SortByKey(ranges, DestKey))
  }

  function MapRun(m: Map, v: int): int {
    FirstFrom(m.ranges, 0, v, false)
  }

  function MapRunBackwards(m: Map, v: int): int {
    FirstFrom(m.backwards, 0, v, true)
  }

  /** `Map::run`: the ranges in order of start; the first that holds the number maps it. */
  method RunMap(m: Map, input: int) returns (r: int)
    ensures r == MapRun(m, input)
  {
    for i := 0 to |m.ranges|
      invariant FirstFrom(m.ranges, i, input, false) == MapRun(m, input)
    {
      var range := m.ranges[i];
      if input >= range.start {
        var res := RangeRun(range, input);
        if res.Some? {
          return res.value;
        }
      }
    }
    return input;
  }

  /** `Map::run_backwards`: the ranges in order of destination. */
  method RunMapBackwards(m: Map, input: int) returns (r: int)
    ensures r == MapRunBackwards(m, input)
  {
    for i := 0 to |m.backwards|
      invariant FirstFrom(m.backwards, i, input, true) == MapRunBackwards(m, input)
    {
      var range := m.backwards[i];
      if input >= range.dest {
        var res := RangeRunBackwards(range, input);
        if res.Some? {
          return res.value;
        }
      }
    }
    return input;
  }

  /** Two ranges share no destination number. */
  predicate DestsApart(a: MapRange, b: MapRange) {
    a.len <= 0 || b.len <= 0 || a.dest + a.len <= b.dest || b.dest + b.len <= a.dest
  }

  predicate Undoes(m: Map, v: int) {
    MapRunBackwards(m, MapRun(m, v)) == v
  }

  /** When no two ranges share a destination, `run_backwards` undoes `run` on every number that
      a range maps, and on every number that no range holds on either side. */
  lemma MapRoundTrip(m: Map, v: int)
    requires multiset(m.backwards) == multiset(m.ranges)
    requires forall i, j :: 0 <= i < j < |m.backwards| ==> DestsApart(m.backwards[i], m.backwards[j])
    requires (exists i :: 0 <= i < |m.ranges| && RangeRun(m.ranges[i], v).Some?) ||
             forall i :: 0 <= i < |m.ranges| ==> RangeRun(m.ranges[i], v).None? && RangeRunBackwards(m.ranges[i], v).None?
    ensures Undoes(m, v)
  {
    if exists i :: 0 <= i < |m.ranges| && RangeRun(m.ranges[i], v).Some? {
      var i := FirstHitAt(m.ranges, v, false);
      var r := m.ranges[i];
      var w := RangeRun(r, v).value;
      FirstHit(m.ranges, i, 0, v, false);
      assert r in multiset(m.backwards);
      var j :| 0 <= j < |m.backwards| && m.backwards[j] == r;
      forall k | 0 <= k < |m.backwards| && k != j
        ensures RangeStep(m.backwards[k], w, true).None?
      {
        if k < j {
          assert DestsApart(m.backwards[k], m.backwards[j]);
        } else {
          assert DestsApart(m.backwards[j], m.backwards[k]);
        }
      }
      FirstHit(m.backwards, j, 0, w, true);
    } else {
      FirstMiss(m.ranges, 0, v, false);
      forall k | 0 <= k < |m.backwards|
        ensures RangeStep(m.backwards[k], v, true).None?
      {
        assert m.backwards[k] in multiset(m.ranges);
      }
      FirstMiss(m.backwards, 0, v, true);
    }
  }

  // ---------------------------------------------------------------------------------------------
  // Parsing

  /** `str::parse::<i64>`, failing with the message of the `ParseIntError`. */
  function ParseI64(w: string): (r: Result<int>)
    ensures r.Ok? <==> ParseSigned(w, I64_LIMIT).Some?
    ensures r.Ok? ==> ParseSigned(w, I64_LIMIT) == Some(r.value)
    ensures r.Err? ==> IntError(w, true, I64_LIMIT).Some? && r.msg == IntErrorMessage(w, true, I64_LIMIT)
  {
    match ParseSigned(w, I64_LIMIT)
    case Some(v) => Ok(v)
    case None =>
      ParseSignedError(w, I64_LIMIT);
      Err(IntErrorMessage(w, true, I64_LIMIT))
  }

  /** `MapRange::parse`: the first three whitespace-separated numbers are the destination, the
      start and the length; a missing one panics and words after them are ignored. */
  function ParseRange(line: string): (r: Result<MapRange>)
    ensures r.Ok? <==> |Words(line)| >= 3 && forall k :: 0 <= k < 3 ==> ParseSigned(Words(line)[k], I64_LIMIT).Some?
    ensures r.Ok? ==> var ws := Words(line);
      r.value == MapRange(ParseSigned(ws[0], I64_LIMIT).value, ParseSigned(ws[1], I64_LIMIT).value, ParseSigned(ws[2], I64_LIMIT).value)
    ensures |Words(line)| < 3 && (forall k :: 0 <= k < |Words(line)| ==> ParseSigned(Words(line)[k], I64_LIMIT).Some?) ==> r == Err(UNWRAP_NONE)
  {
    var ws := Words(line);
    if |ws| < 1 then Err(UNWRAP_NONE)
    else
      var dest :- ParseI64(ws[0]);
      if |ws| < 2 then Err(UNWRAP_NONE)
      else
        var start :- ParseI64(ws[1]);
        if |ws| < 3 then Err(UNWRAP_NONE)
        else
          var len :- ParseI64(ws[2]);
          Ok(MapRange(dest, start, len))
  }

  /** The line the puzzle gives for a range. */
  function RangeText(r: MapRange): string {
    SignedDecimal(r.dest) + " " + SignedDecimal(r.start) + " " + SignedDecimal(r.len)
  }

  /** A range whose numbers are `i64`s parses back from its line. */
  lemma ParseRangeRoundTrip(r: MapRange)
    requires InI64(r.dest) && InI64(r.start) && InI64(r.len)
    ensures ParseRange(RangeText(r)) == Ok(r)
  {
    WordsThree(SignedDecimal(r.dest), SignedDecimal(r.start), SignedDecimal(r.len));
    SignedRoundTrip(r.dest, I64_LIMIT);
    SignedRoundTrip(r.start, I64_LIMIT);
    SignedRoundTrip(r.len, I64_LIMIT);
  }

  /** `Map::parse`: a `<from>-to-<to> map:` header and one range per line after it. */
  function ParseMap(section: string): (r: Result<Map>)
    ensures Lines(section) == [] ==> r == Err(UNWRAP_NONE)
    ensures Lines(section) != [] && SplitOnce(Lines(section)[0], "-to-").None? ==> r == Err(UNWRAP_NONE)
    ensures r.Ok? ==> Lines(section) != [] && CollectAll(Lines(section)[1..], ParseRange).Ok?
    ensures r.Ok? ==> var ranges := CollectAll(Lines(section)[1..], ParseRange).value;
      SortedBy(r.value.ranges, StartKey) && multiset(r.value.ranges) == multiset(ranges) &&
      SortedBy(r.value.backwards, DestKey) && multiset(r.value.backwards) == multiset(ranges)
  {
    var lines := Lines(section);
    if lines == [] then Err(UNWRAP_NONE)
    else
      match SplitOnce(lines[0], "-to-")
      case None => Err(UNWRAP_NONE)
      case Some((from, rest)) =>
        match StripSuffix(rest, " map:")
        case None => Err(UNWRAP_NONE)
        case Some(to) =>
          var ranges :- CollectAll(lines[1..], ParseRange);
          Ok(MapOf(from, to, ranges))
  }

  // ---------------------------------------------------------------------------------------------
  // The almanac

  /** The seeds, the seed ranges as (start, length) pairs ordered by start, and the maps in order. */
  datatype Almanac = Almanac(seeds: seq<int>, seedRanges: seq<(int, int)>, maps: seq<Map>)

  /** `chunks(2)` of an even-length list. */
  function Pairs(s: seq<int>): (ps: seq<(int, int)>)
    requires |s| % 2 == 0
    ensures |ps| == |s| / 2 && forall i :: 0 <= i < |ps| ==> ps[i] == (s[2 * i], s[2 * i + 1])
  {
    seq(|s| / 2, i requires 0 <= i < |s| / 2 => (s[2 * i], s[2 * i + 1]))
  }

  function PairKey(p: (int, int)): seq<int> { [p.0] }

  function SeedWord(d: string): (r: Result<int>)
    ensures r.Ok? <==> ParseSigned(d, I64_LIMIT).Some?
    ensures r.Ok? ==> ParseSigned(d, I64_LIMIT) == Some(r.value)
    ensures r.Err? ==>
      IntError(d, true, I64_LIMIT).Some? && r.msg == "Error parsing " + d + " - " + IntErrorMessage(d, true, I64_LIMIT)
  {
    match ParseI64(d)
    case Ok(v) => Ok(v)
    case Err(e) => Err("Error parsing " + d + " - " + e)
  }

  /** The `map_err` of `Almanac::parse` around `Map::parse`: an error gains the section's text,
      while a panic is no error value and escapes unchanged. */
  function SectionMap(section: string): (r: Result<Map>)
    ensures r.Ok? <==> ParseMap(section).Ok?
    ensures r.Ok? ==> r == ParseMap(section)
    ensures ParseMap(section).Err? && IsPanic(ParseMap(section).msg) ==> r == ParseMap(section)
    ensures ParseMap(section).Err? && !IsPanic(ParseMap(section).msg) ==>
      r == Err("Error parsing " + section + " - " + ParseMap(section).msg)
  {
    match ParseMap(section)
    case Ok(m) => Ok(m)
    case Err(e) => if IsPanic(e) then Err(e) else Err("Error parsing " + section + " - " + e)
  }

  /** A map section whose header has no "-to-" panics in `Map::parse`, and the panic is what
      `Almanac::parse` ends with: "soil map:\n1 2 3" gives the `unwrap` panic, not an error value. */
  lemma HeaderPanicEscapes(section: string)
    requires Lines(section) != [] && SplitOnce(Lines(section)[0], "-to-").None?
    ensures SectionMap(section) == Err(UNWRAP_NONE)
  {
    UnwrapPanics();
  }

  /** A bad number in a range line is an error value, which gains the section's text. */
  lemma RangeErrorWrapped(section: string, i: nat)
    requires Lines(section) != [] && SplitOnce(Lines(section)[0], "-to-").Some?
    requires StripSuffix(SplitOnce(Lines(section)[0], "-to-").value.1, " map:").Some?
    requires 1 <= i < |Lines(section)| && CollectAll(Lines(section)[1..i], ParseRange).Ok?
    requires var ws := Words(Lines(section)[i]); |ws| >= 1 && ParseSigned(ws[0], I64_LIMIT).None?
    ensures SectionMap(section) == Err("Error parsing " + section + " - " + ParseI64(Words(Lines(section)[i])[0]).msg)
  {
    var lines := Lines(section);
    var w := Words(lines[i])[0];
    ParseSignedError(w, I64_LIMIT);
    IntErrorNotPanic(w);
    assert lines[1..][..i - 1] == lines[1..i];
    CollectAllFailsAt(lines[1..], i - 1, ParseRange);
  }

  /** An integer error message is not a panic. */
  lemma IntErrorNotPanic(w: string)
    requires IntError(w, true, I64_LIMIT).Some?
    ensures !IsPanic(IntErrorMessage(w, true, I64_LIMIT))
  {
    assert IntErrorMessage(w, true, I64_LIMIT)[0] != 'p';
  }

  /** `Almanac::parse`: blank-line separated sections, the first `seeds: ` and a list of numbers,
      every other one a map. */
  function ParseAlmanac(input: string): (r: Result<Almanac>)
    ensures StripPrefix(Split(input, "\n\n")[0], "seeds: ").None? ==> r == Err(UNWRAP_NONE)
    ensures var list := StripPrefix(Split(input, "\n\n")[0], "seeds: ");
      list.Some? && CollectAll(Words(list.value), SeedWord).Ok? && |CollectAll(Words(list.value), SeedWord).value| % 2 == 1 ==>
        r == Err("Needs an even number of seeds")
    ensures r.Ok? ==> |r.value.seeds| % 2 == 0
    ensures r.Ok? ==> SortedBy(r.value.seedRanges, PairKey) && multiset(r.value.seedRanges) == multiset(Pairs(r.value.seeds))
    ensures r.Ok? ==> |r.value.maps| == |Split(input, "\n\n")| - 1
    ensures var list := StripPrefix(Split(input, "\n\n")[0], "seeds: ");
      list.Some? && CollectAll(Words(list.value), SeedWord).Err? ==> r == Err(CollectAll(Words(list.value), SeedWord).msg)
    ensures var list := StripPrefix(Split(input, "\n\n")[0], "seeds: ");
      list.Some? && CollectAll(Words(list.value), SeedWord).Ok? && |CollectAll(Words(list.value), SeedWord).value| % 2 == 0 ==>
        var maps := CollectAll(Split(input, "\n\n")[1..], SectionMap);
        (r.Ok? <==> maps.Ok?) && (maps.Err? ==> r == Err(maps.msg)) && (r.Ok? ==> r.value.maps == maps.value)
  {
    var sections := Split(input, "\n\n");
    match StripPrefix(sections[0], "seeds: ")
    case None => Err(UNWRAP_NONE)
    case Some(list) =>
      var seeds :- CollectAll(Words(list), SeedWord);
      if |seeds| % 2 != 0 then Err("Needs an even number of seeds")
      else
        var maps :- CollectAll(sections[1..], SectionMap);
        Ok(Almanac(seeds, SortByKey(Pairs(seeds), PairKey), maps))
  }

  // ---------------------------------------------------------------------------------------------
  // Running the almanac

  /** The value after the first `k` maps. */
  function RunThrough(maps: seq<Map>, k: nat, v: int): int
    requires k <= |maps|
  {
    if k == 0 then v else MapRun(maps[k - 1], RunThrough(maps, k - 1, v))
  }

  /** The value after running the first `k` maps backwards, the last of them first. */
  function RunBack(maps: seq<Map>, k: nat, v: int): int
    requires k <= |maps|
  {
    if k == 0 then v else RunBack(maps, k - 1, MapRunBackwards(maps[k - 1], v))
  }

  function Location(a: Almanac, seed: int): int {
    RunThrough(a.maps, |a.maps|, seed)
  }

  function SeedOf(a: Almanac, loc: int): int {
    RunBack(a.maps, |a.maps|, loc)
  }

  /** `Almanac::run`: the maps applied in order. */
  method RunAlmanac(a: Almanac, v: int) returns (r: int)
    ensures r == Location(a, v)
  {
    r := v;
    for i := 0 to |a.maps|
      invariant r == RunThrough(a.maps, i, v)
    {
      r := RunMap(a.maps[i], r);
    }
  }

  /** `Almanac::run_backwards`: the maps run backwards, last one first. */
  method RunAlmanacBackwards(a: Almanac, v: int) returns (r: int)
    ensures r == SeedOf(a, v)
  {
    r := v;
    var i := |a.maps|;
    while i > 0
      invariant 0 <= i <= |a.maps|
      invariant RunBack(a.maps, i, r) == SeedOf(a, v)
    {
      r := RunMapBackwards(a.maps[i - 1], r);
      i := i - 1;
    }
  }

  /** Running the almanac backwards gives the seed back when every map undoes itself on the
      value that reaches it. */
  lemma {:induction false} AlmanacRoundTrip(maps: seq<Map>, k: nat, v: int)
    requires k <= |maps|
    requires forall i :: 0 <= i < k ==> Undoes(maps[i], RunThrough(maps, i, v))
    ensures RunBack(maps, k, RunThrough(maps, k, v)) == v
  {
    if k > 0 {
      assert Undoes(maps[k - 1], RunThrough(maps, k - 1, v));
      AlmanacRoundTrip(maps, k - 1, v);
    }
  }

  // ---------------------------------------------------------------------------------------------
  // Seeds

  predicate RangeFits(p: (int, int)) { InI64(p.0 + p.1) }

  /** `any` over the seed ranges: each is the inclusive interval `[start, start + len]`, and a range
      whose end overflows `i64` panics when it is reached. */
  function RangesContain(ranges: seq<(int, int)>, seed: int): (r: Result<bool>)
    ensures (forall i :: 0 <= i < |ranges| ==> RangeFits(ranges[i])) ==>
      r == Ok(exists i :: 0 <= i < |ranges| && ranges[i].0 <= seed <= ranges[i].0 + ranges[i].1)
    ensures r == Ok(true) ==> exists i :: 0 <= i < |ranges| && ranges[i].0 <= seed <= ranges[i].0 + ranges[i].1
    ensures r.Err? ==> exists i :: 0 <= i < |ranges| && !RangeFits(ranges[i])
  {
    if ranges == [] then Ok(false)
    else
      var (start, len) := ranges[0];
      if !InI64(start + len) then
        Err("panic: This range " + SignedDecimal(start) + " with " + SignedDecimal(len) + " items is too big")
      else if start <= seed <= start + len then Ok(true)
      else
        var r := RangesContain(ranges[1..], seed);
        assert forall i :: 1 <= i < |ranges| ==> ranges[i] == ranges[1..][i - 1];
        r
  }

  /** `Almanac::has_seed`. */
  function HasSeed(a: Almanac, seed: int, useRanges: bool): (r: Result<bool>)
    ensures !useRanges ==> r == Ok(seed in a.seeds)
  {
    if useRanges then RangesContain(a.seedRanges, seed) else Ok(seed in a.seeds)
  }

  // ---------------------------------------------------------------------------------------------
  // Smallest location

  /** The least location of a seed, capped at `i64::MAX`, the start of the minimum fold. */
  predicate LeastLocation(a: Almanac, res: int) {
    && res <= I64_MAX
    && (forall i :: 0 <= i < |a.seeds| ==> res <= Location(a, a.seeds[i]))
    && (res == I64_MAX || exists i :: 0 <= i < |a.seeds| && res == Location(a, a.seeds[i]))
  }

  /** `smallest_location(false)`: the minimum over the seeds of their locations. */
  method SmallestSeedLocation(a: Almanac) returns (res: int)
    ensures LeastLocation(a, res)
  {
    res := I64_MAX;
    for i := 0 to |a.seeds|
      invariant res <= I64_MAX
      invariant forall k :: 0 <= k < i ==> res <= Location(a, a.seeds[k])
      invariant res == I64_MAX || exists k :: 0 <= k < i && res == Location(a, a.seeds[k])
    {
      var loc := RunAlmanac(a, a.seeds[i]);
      res := if loc < res then loc else res;
    }
  }

  predicate Passed(a: Almanac, loc: int) {
    RangesContain(a.seedRanges, SeedOf(a, loc)) == Ok(false)
  }

  /** The outcome of searching the locations `0..=maxLoc` in order for one whose seed lies in a
      seed range: the first such location, or the panic of the first check that panics, or the
      panic of `unwrap` when every location was passed over. */
  predicate FirstFound(a: Almanac, maxLoc: int, r: Result<int>) {
    if r.Ok? then
      0 <= r.value <= maxLoc && RangesContain(a.seedRanges, SeedOf(a, r.value)) == Ok(true) &&
      forall l :: 0 <= l < r.value ==> Passed(a, l)
    else
      (r == Err(UNWRAP_NONE) && forall l :: 0 <= l <= maxLoc ==> Passed(a, l)) ||
      exists l :: 0 <= l <= maxLoc && RangesContain(a.seedRanges, SeedOf(a, l)) == Err(r.msg) && forall k :: 0 <= k < l ==> Passed(a, k)
  }

  /** The search of `smallest_location(true)`. */
  method FirstLocation(a: Almanac, maxLoc: int) returns (r: Result<int>)
    ensures FirstFound(a, maxLoc, r)
  {
    var loc := 0;
    while loc <= maxLoc
      invariant 0 <= loc && (loc == 0 || loc <= maxLoc + 1)
      invariant forall l :: 0 <= l < loc ==> Passed(a, l)
      decreases maxLoc + 1 - loc
    {
      var seed := RunAlmanacBackwards(a, loc);
      var h := HasSeed(a, seed, true);
      if h.Err? {
        return Err(h.msg);
      }
      if h.value {
        return Ok(loc);
      }
      loc := loc + 1;
    }
    return Err(UNWRAP_NONE);
  }

  /** The upper end of the search: the second smallest destination of the last map. */
  function MaxLocation(a: Almanac): (r: Result<int>)
    ensures r.Ok? <==> |a.maps| > 0 && |a.maps[|a.maps| - 1].ranges| >= 2
    ensures r.Ok? ==> var rs := a.maps[|a.maps| - 1].ranges;
      CountWhere(rs, DestBelow(r.value)) <= 1 && CountWhere(rs, DestAtMost(r.value)) >= 2
  {
    if a.maps == [] then Err(UNWRAP_NONE)
    else
      var last := a.maps[|a.maps| - 1];
      if |last.ranges| < 2 then Err(UNWRAP_NONE)
      else
        var sorted := SortByKey(last.ranges, DestKey);
        var v := sorted[1].dest;
        SecondDest(sorted);
        CountWherePermutation(sorted, last.ranges, DestBelow(v));
        CountWherePermutation(sorted, last.ranges, DestAtMost(v));
        Ok(v)
  }

  function DestBelow(v: int): MapRange -> bool { (r: MapRange) => r.dest < v }
  function DestAtMost(v: int): MapRange -> bool { (r: MapRange) => r.dest <= v }

  /** In ranges sorted by destination, at most one lies below the second destination and at least
      two reach no higher. */
  lemma SecondDest(s: seq<MapRange>)
    requires |s| >= 2 && SortedBy(s, DestKey)
    ensures CountWhere(s, DestBelow(s[1].dest)) <= 1 && CountWhere(s, DestAtMost(s[1].dest)) >= 2
  {
    var v := s[1].dest;
    assert s == s[..2] + s[2..];
    assert s[..2] == [s[0]] + [s[1]] && [s[0]][..0] == [] && ([s[0]] + [s[1]])[..1] == [s[0]];
    assert LexLe(DestKey(s[0]), DestKey(s[1]));
    LexLeSingleton(s[0].dest, s[1].dest);
    CountWhereAppend(s[..2], s[2..], DestBelow(v));
    CountWhereAppend(s[..2], s[2..], DestAtMost(v));
    forall k | 0 <= k < |s[2..]|
      ensures !DestBelow(v)(s[2..][k])
    {
      assert LexLe(DestKey(s[1]), DestKey(s[k + 2]));
      LexLeSingleton(s[1].dest, s[k + 2].dest);
    }
    NoneBelow(s[2..], v);
  }

  lemma {:induction false} NoneBelow(s: seq<MapRange>, v: int)
    requires forall k :: 0 <= k < |s| ==> !DestBelow(v)(s[k])
    ensures CountWhere(s, DestBelow(v)) == 0
  {
    if s != [] {
      NoneBelow(s[..|s| - 1], v);
    }
  }

  /** `Almanac::smallest_location`; a panic is an error. */
  method SmallestLocation(a: Almanac, useRanges: bool) returns (r: Result<int>)
    ensures !useRanges ==> r.Ok? && LeastLocation(a, r.value)
    ensures useRanges && MaxLocation(a).Err? ==> r == MaxLocation(a)
    ensures useRanges && MaxLocation(a).Ok? ==> FirstFound(a, MaxLocation(a).value, r)
  {
    if useRanges {
      var maxLoc := MaxLocation(a);
      if maxLoc.Err? {
        return maxLoc;
      }
      r := FirstLocation(a, maxLoc.value);
    } else {
      var res := SmallestSeedLocation(a);
      r := Ok(res);
    }
  }

  /** `day05_1`: the smallest seed location, cast to `u128`. */
  method Part1(input: string) returns (r: Result<nat>)
    ensures ParseAlmanac(input).Err? ==> r == Err(ParseAlmanac(input).msg)
    ensures ParseAlmanac(input).Ok? ==> r.Ok? && exists res :: LeastLocation(ParseAlmanac(input).value, res) && r.value == AsU128(res)
  {
    var a := ParseAlmanac(input);
    if a.Err? {
      return Err(a.msg);
    }
    var res := SmallestLocation(a.value, false);
    return Ok(AsU128(res.value));
  }

  /** `day05_2`: the first location that maps back into a seed range, cast to `u128`. */
  method Part2(input: string) returns (r: Result<nat>)
    ensures ParseAlmanac(input).Err? ==> r == Err(ParseAlmanac(input).msg)
    ensures ParseAlmanac(input).Ok? && MaxLocation(ParseAlmanac(input).value).Err? ==> r == Err(UNWRAP_NONE)
    ensures ParseAlmanac(input).Ok? && MaxLocation(ParseAlmanac(input).value).Ok? ==>
      var a := ParseAlmanac(input).value;
      exists res :: FirstFound(a, MaxLocation(a).value, res) &&
        r == (if res.Ok? then Ok(AsU128(res.value)) else Err(res.msg))
  {
    var a := ParseAlmanac(input);
    if a.Err? {
      return Err(a.msg);
    }
    var res := SmallestLocation(a.value, true);
    if res.Err? {
      return Err(res.msg);
    }
    return Ok(AsU128(res.value));
  }

  // ---------------------------------------------------------------------------------------------
  // The sample almanac of the unit tests

  /** The maps of the sample as parsing builds them: ranges ordered by start, then by destination. */
  function SeedToSoil(): Map {
    Map("seed", "soil", [MapRange(52, 50, 48), MapRange(50, 98, 2)], [MapRange(50, 98, 2), MapRange(52, 50, 48)])
  }
  function SoilToFertilizer(): Map {
    Map("soil", "fertilizer", [MapRange(39, 0, 15), MapRange(0, 15, 37), MapRange(37, 52, 2)],
      [MapRange(0, 15, 37), MapRange(37, 52, 2), MapRange(39, 0, 15)])
  }
  function FertilizerToWater(): Map {
    Map("fertilizer", "water", [MapRange(42, 0, 7), MapRange(57, 7, 4), MapRange(0, 11, 42), MapRange(49, 53, 8)],
      [MapRange(0, 11, 42), MapRange(42, 0, 7), MapRange(49, 53, 8), MapRange(57, 7, 4)])
  }
  function WaterToLight(): Map {
    Map("water", "light", [MapRange(88, 18, 7), MapRange(18, 25, 70)], [MapRange(18, 25, 70), MapRange(88, 18, 7)])
  }
  function LightToTemperature(): Map {
    Map("light", "temperature", [MapRange(81, 45, 19), MapRange(68, 64, 13), MapRange(45, 77, 23)],
      [MapRange(45, 77, 23), MapRange(68, 64, 13), MapRange(81, 45, 19)])
  }
  function TemperatureToHumidity(): Map {
    Map("temperature", "humidity", [MapRange(1, 0, 69), MapRange(0, 69, 1)], [MapRange(0, 69, 1), MapRange(1, 0, 69)])
  }
  function HumidityToLocation(): Map {
    Map("humidity", "location", [MapRange(60, 56, 37), MapRange(56, 93, 4)], [MapRange(56, 93, 4), MapRange(60, 56, 37)])
  }

  /** The almanac that parsing the sample builds: its seeds, their ranges and its seven maps. */
  function Sample(): Almanac {
    Almanac([79, 14, 55, 13], [(55, 13), (79, 14)],
      [SeedToSoil(), SoilToFertilizer(), FertilizerToWater(), WaterToLight(),
       LightToTemperature(), TemperatureToHumidity(), HumidityToLocation()])
  }

  /** Ranges listed with strictly increasing keys are the sorted arrangement. */
  lemma SortedAs(rs: seq<MapRange>, t: seq<MapRange>, byDest: bool)
    requires multiset(t) == multiset(rs)
    requires forall i, j :: 0 <= i < j < |t| ==> if byDest then t[i].dest < t[j].dest else t[i].start < t[j].start
    ensures SortByKey(rs, if byDest then DestKey else StartKey) == t
  {
    var key := if byDest then DestKey else StartKey;
    forall i, j | 0 <= i < j < |t|
      ensures LexLe(key(t[i]), key(t[j]))
    {
      if byDest {
        LexLeSingleton(t[i].dest, t[j].dest);
      } else {
        LexLeSingleton(t[i].start, t[j].start);
      }
    }
    assert KeyInjective(t, key) by {
      forall i, j | 0 <= i < |t| && 0 <= j < |t| && key(t[i]) == key(t[j])
        ensures t[i] == t[j]
      {
        if byDest {
          assert key(t[i])[0] == t[i].dest && key(t[j])[0] == t[j].dest;
        } else {
          assert key(t[i])[0] == t[i].start && key(t[j])[0] == t[j].start;
        }
      }
    }
    SortedUnique(t, SortByKey(rs, key), key);
  }

  lemma FirstOfTwo(a: MapRange, b: MapRange, v: int, back: bool)
    ensures FirstFrom([a, b], 0, v, back) ==
      if RangeStep(a, v, back).Some? then RangeStep(a, v, back).value
      else if RangeStep(b, v, back).Some? then RangeStep(b, v, back).value
      else v
  {
    var rs := [a, b];
    assert FirstFrom(rs, 2, v, back) == v;
    assert rs[1] == b;
  }

  lemma FirstOfThree(a: MapRange, b: MapRange, c: MapRange, v: int, back: bool)
    ensures FirstFrom([a, b, c], 0, v, back) ==
      if RangeStep(a, v, back).Some? then RangeStep(a, v, back).value
      else if RangeStep(b, v, back).Some? then RangeStep(b, v, back).value
      else if RangeStep(c, v, back).Some? then RangeStep(c, v, back).value
      else v
  {
    var rs := [a, b, c];
    assert rs[1] == b && rs[2] == c;
    assert FirstFrom(rs, 3, v, back) == v;
    assert FirstFrom(rs, 2, v, back) == if RangeStep(c, v, back).Some? then RangeStep(c, v, back).value else v;
  }

  lemma FirstOfFour(a: MapRange, b: MapRange, c: MapRange, d: MapRange, v: int, back: bool)
    ensures FirstFrom([a, b, c, d], 0, v, back) ==
      if RangeStep(a, v, back).Some? then RangeStep(a, v, back).value
      else if RangeStep(b, v, back).Some? then RangeStep(b, v, back).value
      else if RangeStep(c, v, back).Some? then RangeStep(c, v, back).value
      else if RangeStep(d, v, back).Some? then RangeStep(d, v, back).value
      else v
  {
    var rs := [a, b, c, d];
    assert rs[1] == b && rs[2] == c && rs[3] == d;
    assert FirstFrom(rs, 4, v, back) == v;
    assert FirstFrom(rs, 3, v, back) == if RangeStep(d, v, back).Some? then RangeStep(d, v, back).value else v;
    assert FirstFrom(rs, 2, v, back) ==
      if RangeStep(c, v, back).Some? then RangeStep(c, v, back).value
      else if RangeStep(d, v, back).Some? then RangeStep(d, v, back).value else v;
  }

  lemma SeedToSoilRuns(v: int)
    ensures MapRun(SeedToSoil(), v) == if 50 <= v < 98 then v + 2 else if 98 <= v < 100 then v - 48 else v
    ensures MapRunBackwards(SeedToSoil(), v) == if 50 <= v < 52 then v + 48 else if 52 <= v < 100 then v - 2 else v
  {
    var rs := [MapRange(50, 98, 2), MapRange(52, 50, 48)];
    FirstOfTwo(rs[1], rs[0], v, false);
    FirstOfTwo(rs[0], rs[1], v, true);
  }

  lemma SoilToFertilizerRuns(v: int)
    ensures MapRun(SoilToFertilizer(), v) ==
      if 0 <= v < 15 then v + 39 else if 15 <= v < 54 then v - 15 else v
    ensures MapRunBackwards(SoilToFertilizer(), v) ==
      if 0 <= v < 39 then v + 15 else if 39 <= v < 54 then v - 39 else v
  {
    var rs := [MapRange(0, 15, 37), MapRange(37, 52, 2), MapRange(39, 0, 15)];
    FirstOfThree(rs[2], rs[0], rs[1], v, false);
    FirstOfThree(rs[0], rs[1], rs[2], v, true);
  }

  lemma FertilizerToWaterRuns(v: int)
    ensures MapRun(FertilizerToWater(), v) ==
      if 0 <= v < 7 then v + 42 else if 7 <= v < 11 then v + 50
      else if 11 <= v < 53 then v - 11 else if 53 <= v < 61 then v - 4 else v
    ensures MapRunBackwards(FertilizerToWater(), v) ==
      if 0 <= v < 42 then v + 11 else if 42 <= v < 49 then v - 42
      else if 49 <= v < 57 then v + 4 else if 57 <= v < 61 then v - 50 else v
  {
    var rs := [MapRange(49, 53, 8), MapRange(0, 11, 42), MapRange(42, 0, 7), MapRange(57, 7, 4)];
    FirstOfFour(rs[2], rs[3], rs[1], rs[0], v, false);
    FirstOfFour(rs[1], rs[2], rs[0], rs[3], v, true);
  }

  lemma WaterToLightRuns(v: int)
    ensures MapRun(WaterToLight(), v) == if 18 <= v < 25 then v + 70 else if 25 <= v < 95 then v - 7 else v
    ensures MapRunBackwards(WaterToLight(), v) == if 18 <= v < 88 then v + 7 else if 88 <= v < 95 then v - 70 else v
  {
    var rs := [MapRange(88, 18, 7), MapRange(18, 25, 70)];
    FirstOfTwo(rs[0], rs[1], v, false);
    FirstOfTwo(rs[1], rs[0], v, true);
  }

  lemma LightToTemperatureRuns(v: int)
    ensures MapRun(LightToTemperature(), v) ==
      if 45 <= v < 64 then v + 36 else if 64 <= v < 77 then v + 4 else if 77 <= v < 100 then v - 32 else v
    ensures MapRunBackwards(LightToTemperature(), v) ==
      if 45 <= v < 68 then v + 32 else if 68 <= v < 81 then v - 4 else if 81 <= v < 100 then v - 36 else v
  {
    var rs := [MapRange(45, 77, 23), MapRange(81, 45, 19), MapRange(68, 64, 13)];
    FirstOfThree(rs[1], rs[2], rs[0], v, false);
    FirstOfThree(rs[0], rs[2], rs[1], v, true);
  }

  lemma TemperatureToHumidityRuns(v: int)
    ensures MapRun(TemperatureToHumidity(), v) == if 0 <= v < 69 then v + 1 else if v == 69 then 0 else v
    ensures MapRunBackwards(TemperatureToHumidity(), v) == if v == 0 then 69 else if 1 <= v < 70 then v - 1 else v
  {
    var rs := [MapRange(0, 69, 1), MapRange(1, 0, 69)];
    FirstOfTwo(rs[1], rs[0], v, false);
    FirstOfTwo(rs[0], rs[1], v, true);
  }

  lemma HumidityToLocationRuns(v: int)
    ensures MapRun(HumidityToLocation(), v) == if 56 <= v < 93 then v + 4 else if 93 <= v < 97 then v - 37 else v
    ensures MapRunBackwards(HumidityToLocation(), v) == if 56 <= v < 60 then v + 37 else if 60 <= v < 97 then v - 4 else v
  {
    var rs := [MapRange(60, 56, 37), MapRange(56, 93, 4)];
    FirstOfTwo(rs[0], rs[1], v, false);
    FirstOfTwo(rs[1], rs[0], v, true);
  }

  /** A seed reaches its location through the seven maps of the sample. */
  lemma SampleLocation(seed: int, soil: int, fertilizer: int, water: int, light: int, temperature: int, humidity: int, loc: int)
    requires MapRun(SeedToSoil(), seed) == soil && MapRun(SoilToFertilizer(), soil) == fertilizer
    requires MapRun(FertilizerToWater(), fertilizer) == water && MapRun(WaterToLight(), water) == light
    requires MapRun(LightToTemperature(), light) == temperature && MapRun(TemperatureToHumidity(), temperature) == humidity
    requires MapRun(HumidityToLocation(), humidity) == loc
    ensures Location(Sample(), seed) == loc
  {
    var maps := Sample().maps;
    assert RunThrough(maps, 1, seed) == soil;
    assert RunThrough(maps, 2, seed) == fertilizer;
    assert RunThrough(maps, 3, seed) == water;
    assert RunThrough(maps, 4, seed) == light;
    assert RunThrough(maps, 5, seed) == temperature;
    assert RunThrough(maps, 6, seed) == humidity;
  }

  /** A location leads back to its seed through the seven maps, the last first. */
  lemma SampleSeed(loc: int, humidity: int, temperature: int, light: int, water: int, fertilizer: int, soil: int, seed: int)
    requires MapRunBackwards(HumidityToLocation(), loc) == humidity
    requires MapRunBackwards(TemperatureToHumidity(), humidity) == temperature
    requires MapRunBackwards(LightToTemperature(), temperature) == light
    requires MapRunBackwards(WaterToLight(), light) == water
    requires MapRunBackwards(FertilizerToWater(), water) == fertilizer
    requires MapRunBackwards(SoilToFertilizer(), fertilizer) == soil
    requires MapRunBackwards(SeedToSoil(), soil) == seed
    ensures SeedOf(Sample(), loc) == seed
  {
    var maps := Sample().maps;
    assert RunBack(maps, 1, soil) == seed;
    assert RunBack(maps, 2, fertilizer) == seed;
    assert RunBack(maps, 3, water) == seed;
    assert RunBack(maps, 4, light) == seed;
    assert RunBack(maps, 5, temperature) == seed;
    assert RunBack(maps, 6, humidity) == seed;
  }

  /** The four seeds of the sample end at locations 82, 43, 86 and 35. */
  lemma SampleLocations()
    ensures Location(Sample(), 79) == 82 && Location(Sample(), 14) == 43
    ensures Location(Sample(), 55) == 86 && Location(Sample(), 13) == 35
  {
    SeedToSoilRuns(79); SoilToFertilizerRuns(81); FertilizerToWaterRuns(81); WaterToLightRuns(81);
    LightToTemperatureRuns(74); TemperatureToHumidityRuns(78); HumidityToLocationRuns(78);
    SampleLocation(79, 81, 81, 81, 74, 78, 78, 82);
    SeedToSoilRuns(14); SoilToFertilizerRuns(14); FertilizerToWaterRuns(53); WaterToLightRuns(49);
    LightToTemperatureRuns(42); TemperatureToHumidityRuns(42); HumidityToLocationRuns(43);
    SampleLocation(14, 14, 53, 49, 42, 42, 43, 43);
    SeedToSoilRuns(55); SoilToFertilizerRuns(57); FertilizerToWaterRuns(57); WaterToLightRuns(53);
    LightToTemperatureRuns(46); TemperatureToHumidityRuns(82); HumidityToLocationRuns(82);
    SampleLocation(55, 57, 57, 53, 46, 82, 82, 86);
    SeedToSoilRuns(13); SoilToFertilizerRuns(13); FertilizerToWaterRuns(52); WaterToLightRuns(41);
    LightToTemperatureRuns(34); TemperatureToHumidityRuns(34); HumidityToLocationRuns(35);
    SampleLocation(13, 13, 52, 41, 34, 34, 35, 35);
  }

  /** The unit test of part one: the smallest location is 35. */
  lemma SamplePart1()
    ensures LeastLocation(Sample(), 35)
  {
    SampleLocations();
    assert Sample().seeds[3] == 13;
  }

  /** The seed ranges of the sample: 55 for 13 seeds, then 79 for 14. */
  lemma SampleSeedRanges()
    ensures Sample().seedRanges == [(55, 13), (79, 14)]
  {
    var ps := Pairs([79, 14, 55, 13]);
    assert ps == [(79, 14), (55, 13)];
    var t := [(55, 13), (79, 14)];
    LexLeSingleton(55, 79);
    assert LexLe(PairKey(t[0]), PairKey(t[1]));
    assert KeyInjective(t, PairKey) by {
      assert PairKey(t[0])[0] == 55 && PairKey(t[1])[0] == 79;
    }
    assert multiset(t) == multiset(ps);
    SortedUnique(t, SortByKey(ps, PairKey), PairKey);
  }

  lemma SampleContains(seed: int)
    ensures RangesContain(Sample().seedRanges, seed) == Ok(55 <= seed <= 68 || 79 <= seed <= 93)
  {
    SampleSeedRanges();
  }

  /** The unit test of part two: the search runs up to 60 and finds location 46 first. */
  lemma SamplePart2()
    ensures MaxLocation(Sample()) == Ok(60)
    ensures FirstFound(Sample(), 60, Ok(46))
  {
    HumidityToLocationRuns(0);
    var rs := HumidityToLocation().ranges;
    HumidityToLocationRuns(46); TemperatureToHumidityRuns(46); LightToTemperatureRuns(45); WaterToLightRuns(77);
    FertilizerToWaterRuns(84); SoilToFertilizerRuns(84); SeedToSoilRuns(84);
    SampleSeed(46, 46, 45, 77, 84, 84, 84, 82);
    SampleContains(82);
    forall l | 0 <= l < 46
      ensures Passed(Sample(), l)
    {
      HumidityToLocationRuns(l);
      var h := MapRunBackwards(HumidityToLocation(), l);
      TemperatureToHumidityRuns(h);
      var t := MapRunBackwards(TemperatureToHumidity(), h);
      LightToTemperatureRuns(t);
      var li := MapRunBackwards(LightToTemperature(), t);
      WaterToLightRuns(li);
      var w := MapRunBackwards(WaterToLight(), li);
      FertilizerToWaterRuns(w);
      var f := MapRunBackwards(FertilizerToWater(), w);
      SoilToFertilizerRuns(f);
      var so := MapRunBackwards(SoilToFertilizer(), f);
      SeedToSoilRuns(so);
      var seed := MapRunBackwards(SeedToSoil(), so);
      SampleSeed(l, h, t, li, w, f, so, seed);
      SampleContains(seed);
    }
  }
}
