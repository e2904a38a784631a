/** 2015 day 5: which strings on Santa's list are nice. */
module Y2015Day05 {
  import opened Outcomes
  import opened Text

  /** The number of lines satisfying `nice`. */
  function CountNice(lines: seq<string>, nice: string -> bool): (n: nat)
    ensures n <= |lines|
    ensures n == 0 <==> forall i :: 0 <= i < |lines| ==> !nice(lines[i])
  {
    if lines == [] then 0
    else CountNice(lines[..|lines| - 1], nice) + (if nice(lines[|lines| - 1]) then 1 else 0)
  }

  lemma CountNiceSnoc(lines: seq<string>, line: string, nice: string -> bool)
    ensures CountNice(lines + [line], nice) == CountNice(lines, nice) + (if nice(line) then 1 else 0)
  {
    assert (lines + [line])[..|lines|] == lines;
  }

  // ---------------------------------------------------------------------------------------------
  // Part 1

  predicate IsVowel(c: char) { c == 'a' || c == 'e' || c == 'i' || c == 'o' || c == 'u' }

  /** The number of vowels among the first `n` letters. */
  function VowelsBelow(s: string, n: nat): (v: nat)
    requires n <= |s|
    ensures v <= n
  {
    if n == 0 then 0 else VowelsBelow(s, n - 1) + (if IsVowel(s[n - 1]) then 1 else 0)
  }

  function Vowels(s: string): nat {
    VowelsBelow(s, |s|)
  }

  /** Some letter appears twice in a row. */
  predicate HasDouble(s: string) {
    exists i :: 0 <= i < |s| - 1 && s[i] == s[i + 1]
  }

  predicate IsNaughtyPair(a: char, b: char) {
    (a == 'a' && b == 'b') || (a == 'c' && b == 'd') || (a == 'p' && b == 'q') || (a == 'x' && b == 'y')
  }

  /** One of "ab", "cd", "pq" or "xy" occurs. */
  predicate HasNaughty(s: string) {
    exists i :: 0 <= i < |s| - 1 && IsNaughtyPair(s[i], s[i + 1])
  }

  /** The three rules of part one. */
  predicate Nice1(s: string) {
    Vowels(s) >= 3 && HasDouble(s) && !HasNaughty(s)
  }

  /** `is_nice_01`: the vowel count, the double-letter scan and the naughty-pair scan in turn. */
  method IsNice01(s: string) returns (b: bool)
    ensures b <==> Nice1(s)
  {
    var nVowels := 0;
    for i := 0 to |s|
      invariant nVowels == VowelsBelow(s, i)
    {
      if IsVowel(s[i]) {
        nVowels := nVowels + 1;
      }
    }
    if nVowels < 3 {
      return false;
    }
    var hasDoubleLetter := false;
    var i := 0;
    while i < |s| - 1
      invariant 0 <= i <= |s|
      invariant !hasDoubleLetter ==> forall k :: 0 <= k < i && k < |s| - 1 ==> s[k] != s[k + 1]
      invariant hasDoubleLetter ==> HasDouble(s)
    {
      if s[i] == s[i + 1] {
        hasDoubleLetter := true;
        break;
      }
      i := i + 1;
    }
    if !hasDoubleLetter {
      return false;
    }
    for j := 0 to if |s| == 0 then 0 else |s| - 1
      invariant forall k :: 0 <= k < j ==> !IsNaughtyPair(s[k], s[k + 1])
    {
      if IsNaughtyPair(s[j], s[j + 1]) {
        return false;
      }
    }
    return true;
  }

  /** `total_nice` with `is_nice_01`. */
  method Part1(input: string) returns (r: Result<nat>)
    ensures r == Ok(CountNice(Lines(input), Nice1))
    ensures r.value <= |Lines(input)|
  {
    var lines := Lines(input);
    var total := 0;
    for i := 0 to |lines|
      invariant total == CountNice(lines[..i], Nice1)
    {
      assert lines[..i + 1] == lines[..i] + [lines[i]];
      CountNiceSnoc(lines[..i], lines[i], Nice1);
      var nice := IsNice01(lines[i]);
      if nice {
        total := total + 1;
      }
    }
    assert lines[..|lines|] == lines;
    return Ok(total);
  }

  // ---------------------------------------------------------------------------------------------
  // Part 2

  /** Some pair of letters occurs twice without the two occurrences overlapping. */
  predicate HasNonOverlappingPair(s: string) {
    exists k, j :: 0 <= k && k + 2 <= j < |s| - 1 && s[k] == s[j] && s[k + 1] == s[j + 1]
  }

  /** Some pair of letters occurs at two different positions, overlapping or not. */
  predicate HasRepeatedPair(s: string) {
    exists k, j :: 0 <= k < j < |s| - 1 && s[k] == s[j] && s[k + 1] == s[j + 1]
  }

  /** Some letter repeats with exactly one letter between. */
  predicate HasSandwich(s: string) {
    exists i :: 0 <= i < |s| - 2 && s[i] == s[i + 2]
  }

  /** The two rules of part two. */
  predicate Nice2(s: string) {
    HasNonOverlappingPair(s) && HasSandwich(s)
  }

  /** The `windows(3)` scan of `is_nice_02`. */
  method Sandwich(s: string) returns (b: bool)
    ensures b <==> HasSandwich(s)
  {
    for i := 0 to if |s| < 2 then 0 else |s| - 2
      invariant forall k :: 0 <= k < i ==> s[k] != s[k + 2]
    {
      if s[i] == s[i + 2] {
        return true;
      }
    }
    return false;
  }

  function Pair(s: string, k: nat): (char, char)
    requires k + 1 < |s|
  {
    (s[k], s[k + 1])
  }

  /** The pair scan of `is_nice_02` as written: after moving past a pair of equal letters it skips
      the next pair when the letter three places on matches. */
  function ScanAsWritten(s: string, i: nat, pairs: set<(char, char)>): bool
    decreases |s| - i
  {
    if i + 1 >= |s| then false
    else if Pair(s, i) in pairs then true
    else
      var next := i + 1;
      if s[i] == s[i + 1] && next + 2 < |s| && s[i + 1] == s[next + 2] then ScanAsWritten(s, next + 1, pairs + {Pair(s, i)})
      else ScanAsWritten(s, next, pairs + {Pair(s, i)})
  }

  /** The pair loop of `is_nice_02` exactly as written. */
  method ScanPairsAsWritten(s: string) returns (hasDouble: bool)
    ensures hasDouble == ScanAsWritten(s, 0, {})
    ensures hasDouble ==> HasRepeatedPair(s)
  {
    var pairs: set<(char, char)> := {};
    hasDouble := false;
    var i := 0;
    while i < |s| - 1
      invariant ScanAsWritten(s, 0, {}) == ScanAsWritten(s, i, pairs)
      invariant forall p :: p in pairs ==> exists k :: 0 <= k < i && k + 1 < |s| && Pair(s, k) == p
      decreases |s| - i
    {
      var pair := Pair(s, i);
      if pair in pairs {
        hasDouble := true;
        var k :| 0 <= k < i && k + 1 < |s| && Pair(s, k) == pair;
        assert s[k] == s[i] && s[k + 1] == s[i + 1];
        return;
      }
      pairs := pairs + {pair};
      i := i + 1;
      if pair.0 == pair.1 && i < |s| - 2 && pair.1 == s[i + 2] {
        i := i + 1;
      }
    }
  }

  /** The two rules of part two as the source checks them. */
  predicate Nice2AsWritten(s: string) {
    ScanAsWritten(s, 0, {}) && HasSandwich(s)
  }

  /** `is_nice_02` as written. */
  method IsNice02AsWritten(s: string) returns (b: bool)
    ensures b == Nice2AsWritten(s)
    ensures b ==> HasRepeatedPair(s) && HasSandwich(s)
  {
    var hasDouble := ScanPairsAsWritten(s);
    if !hasDouble {
      return false;
    }
    b := Sandwich(s);
  }

  /** As written, the pair loop takes the two overlapping pairs of "aaa" for a repetition. */
  lemma AsWrittenAcceptsOverlap()
    ensures ScanAsWritten("aaa", 0, {}) && HasSandwich("aaa")
    ensures !Nice2("aaa")
  {
    assert "aaa"[0] == "aaa"[2];
    assert ScanAsWritten("aaa", 1, {('a', 'a')});
  }

  /** As written, the skip after "aa" in "aabab" also passes over the pair "ab" at index 1, so the
      repetition of "ab" at indices 1 and 3 goes unseen. */
  lemma AsWrittenMissesSkippedPair()
    ensures !Nice2AsWritten("aabab")
    ensures Nice2("aabab")
  {
    var s := "aabab";
    assert s[1] == s[3] && s[2] == s[4];
    assert ScanAsWritten(s, 2, {('a', 'a')}) == ScanAsWritten(s, 3, {('a', 'a'), ('b', 'a')});
    assert ScanAsWritten(s, 3, {('a', 'a'), ('b', 'a')}) == ScanAsWritten(s, 4, {('a', 'a'), ('b', 'a'), ('a', 'b')});
  }

  /** Position `m` was inserted, or skipped as a copy of the inserted pair just before it. */
  ghost predicate Covered(s: string, inserted: set<nat>, m: nat) {
    m in inserted || (m >= 1 && m - 1 in inserted && m + 1 < |s| && Pair(s, m) == Pair(s, m - 1))
  }

  /** The pair loop of `is_nice_02` with the evident intent: the pair that overlaps a run of three
      equal letters is skipped, so only non-overlapping repetitions count. */
  method ScanPairs(s: string) returns (hasDouble: bool)
    ensures hasDouble <==> HasNonOverlappingPair(s)
  {
    var pairs: set<(char, char)> := {};
    ghost var inserted: set<nat> := {};
    var i := 0;
    while i < |s| - 1
      invariant i == 0 || i <= |s| - 1
      invariant forall k :: k in inserted ==> k < i && k + 1 < |s|
      invariant pairs == set k | k in inserted :: Pair(s, k)
      invariant forall m :: 0 <= m < i ==> Covered(s, inserted, m)
      invariant forall a, b :: a in inserted && b in inserted && a != b ==> Pair(s, a) != Pair(s, b)
      invariant i >= 1 && i - 1 in inserted && i + 1 < |s| ==> Pair(s, i - 1) != Pair(s, i)
      decreases |s| - i
    {
      var pair := Pair(s, i);
      if pair in pairs {
        ghost var k :| k in inserted && Pair(s, k) == pair;
        assert k < i && k != i - 1;
        assert 0 <= k && k + 2 <= i < |s| - 1 && s[k] == s[i] && s[k + 1] == s[i + 1];
        return true;
      }
      ghost var o := i;
      ghost var prev := inserted;
      inserted := inserted + {i};
      pairs := pairs + {pair};
      i := i + 1;
      if pair.0 == pair.1 && i < |s| - 1 && pair.1 == s[i + 1] {
        assert Pair(s, i) == Pair(s, o);
        i := i + 1;
      }
      forall m | 0 <= m < i
        ensures Covered(s, inserted, m)
      {
        if m < o {
          assert Covered(s, prev, m);
        } else if m > o {
          assert m == o + 1 && m - 1 in inserted;
        }
      }
    }
    forall m | 0 <= m < |s| - 1
      ensures m in inserted || (m >= 1 && m - 1 in inserted && Pair(s, m) == Pair(s, m - 1))
    {
      assert Covered(s, inserted, m);
    }
    NoRepetitionLeft(s, inserted);
    return false;
  }

  /** When every pair is inserted, or skipped as a copy of the one before it, and no two inserted
      pairs are equal, no pair repeats without overlap. */
  lemma NoRepetitionLeft(s: string, inserted: set<nat>)
    requires forall k :: k in inserted ==> k + 1 < |s|
    requires forall m :: 0 <= m < |s| - 1 ==> m in inserted || (m >= 1 && m - 1 in inserted && Pair(s, m) == Pair(s, m - 1))
    requires forall a, b :: a in inserted && b in inserted && a != b ==> Pair(s, a) != Pair(s, b)
    ensures !HasNonOverlappingPair(s)
  {
    forall k, j | 0 <= k && k + 2 <= j < |s| - 1
      ensures !(s[k] == s[j] && s[k + 1] == s[j + 1])
    {
      var k' := Representative(s, inserted, k);
      var j' := Representative(s, inserted, j);
      assert k' != j' && Pair(s, k) != Pair(s, j);
    }
  }

  /** The inserted pair, at `m` or just before it, that has the same letters as the pair at `m`. */
  lemma Representative(s: string, inserted: set<nat>, m: nat) returns (m': nat)
    requires m < |s| - 1
    requires m in inserted || (m >= 1 && m - 1 in inserted && Pair(s, m) == Pair(s, m - 1))
    requires forall k :: k in inserted ==> k + 1 < |s|
    ensures m' in inserted && (m' == m || m' + 1 == m) && Pair(s, m') == Pair(s, m)
  {
    m' := if m in inserted then m else m - 1;
  }

  /** `is_nice_02` with the pair loop corrected. */
  method IsNice02(s: string) returns (b: bool)
    ensures b <==> Nice2(s)
  {
    var hasDouble := ScanPairs(s);
    if !hasDouble {
      return false;
    }
    b := Sandwich(s);
  }

  /** `total_nice` with `is_nice_02` as written. */
  method Part2(input: string) returns (r: Result<nat>)
    ensures r == Ok(CountNice(Lines(input), Nice2AsWritten))
    ensures r.value <= |Lines(input)|
  {
    var lines := Lines(input);
    var total := 0;
    for i := 0 to |lines|
      invariant total == CountNice(lines[..i], Nice2AsWritten)
    {
      assert lines[..i + 1] == lines[..i] + [lines[i]];
      CountNiceSnoc(lines[..i], lines[i], Nice2AsWritten);
      var nice := IsNice02AsWritten(lines[i]);
      if nice {
        total := total + 1;
      }
    }
    assert lines[..|lines|] == lines;
    return Ok(total);
  }

  /** `total_nice` with the corrected `is_nice_02`. */
  method Part2Intended(input: string) returns (r: Result<nat>)
    ensures r == Ok(CountNice(Lines(input), Nice2))
    ensures r.value <= |Lines(input)|
  {
    var lines := Lines(input);
    var total := 0;
    for i := 0 to |lines|
      invariant total == CountNice(lines[..i], Nice2)
    {
      assert lines[..i + 1] == lines[..i] + [lines[i]];
      CountNiceSnoc(lines[..i], lines[i], Nice2);
      var nice := IsNice02(lines[i]);
      if nice {
        total := total + 1;
      }
    }
    assert lines[..|lines|] == lines;
    return Ok(total);
  }

  lemma FixtureTriple()
    ensures Nice1("aaa")
  {
    assert "aaa"[0] == "aaa"[1];
  }

  lemma VowelsOfNice()
    ensures Vowels("ugknbfddgicrmopn") == 3
  {
    var s := "ugknbfddgicrmopn";
    assert VowelsBelow(s, 4) == 1;
    assert VowelsBelow(s, 8) == 1;
    assert VowelsBelow(s, 12) == 2;
    assert VowelsBelow(s, 16) == 3;
  }

  lemma NoNaughtyInNice()
    ensures !HasNaughty("ugknbfddgicrmopn")
  {
    var s := "ugknbfddgicrmopn";
    forall k | 0 <= k < |s| - 1
      ensures !IsNaughtyPair(s[k], s[k + 1])
    {
    }
  }

  lemma FixtureNice()
    ensures Nice1("ugknbfddgicrmopn")
  {
    var s := "ugknbfddgicrmopn";
    VowelsOfNice();
    NoNaughtyInNice();
    assert s[6] == s[7];
  }

  lemma FixtureNoDouble()
    ensures !Nice1("jchzalrnumimnmhp")
  {
    var s := "jchzalrnumimnmhp";
    assert forall k :: 0 <= k < |s| - 1 ==> s[k] != s[k + 1];
  }

  lemma FixtureNaughty()
    ensures !Nice1("haegwjzuvuyypxyu")
  {
    var s := "haegwjzuvuyypxyu";
    assert IsNaughtyPair(s[13], s[14]);
  }

  lemma VowelsOfOneVowel()
    ensures Vowels("dvszwmarrgswjxmb") == 1
  {
    var s := "dvszwmarrgswjxmb";
    assert VowelsBelow(s, 4) == 0;
    assert VowelsBelow(s, 8) == 1;
    assert VowelsBelow(s, 12) == 1;
    assert VowelsBelow(s, 16) == 1;
  }

  lemma FixtureOneVowel()
    ensures !Nice1("dvszwmarrgswjxmb")
  {
    VowelsOfOneVowel();
  }

  lemma Fixtures2()
    ensures Nice2("xxyxx")
    ensures !Nice2("aaa")
  {
    assert "xxyxx"[0] == "xxyxx"[3] && "xxyxx"[1] == "xxyxx"[4];
    assert "xxyxx"[1] == "xxyxx"[3];
  }

  /** The source's own checks accept "xxyxx": the pair "xx" is met again at index 3. */
  lemma Fixture2AsWritten()
    ensures Nice2AsWritten("xxyxx")
  {
    var s := "xxyxx";
    assert s[1] == s[3];
    assert ScanAsWritten(s, 2, {('x', 'x')}) == ScanAsWritten(s, 3, {('x', 'x'), ('y', 'x')});
  }
}
