/** 2023 day 1: calibration values made of the first and last digit of each line, the digits
    written either as numerals or, in part two, also spelled out. */
module Y2023Day01 {
  import opened Outcomes
  import opened Text
  import opened LineSums

  /** `is_digit`: a character from '0' to '9'. */
  predicate IsNumeral(c: char) {
    '0' <= c <= '9'
  }

  /** `is_digit` asks whether the character is one of those of "1234567890": the same test. */
  lemma NumeralsAreDigits(c: char)
    ensures IsNumeral(c) <==> c in "1234567890"
  {
  }

  /** Index of the first numeral in `s`, or `|s|` if there is none. */
  function FirstNumeral(s: string): (i: nat)
    ensures i <= |s| && (i < |s| ==> IsNumeral(s[i]))
    ensures forall k :: 0 <= k < i ==> !IsNumeral(s[k])
  {
    if s == [] then 0 else if IsNumeral(s[0]) then 0 else 1 + FirstNumeral(s[1..])
  }

  /** Index of the last numeral in `s`, or `|s|` if there is none. */
  function LastNumeral(s: string): (i: nat)
    ensures i <= |s| && (i < |s| ==> IsNumeral(s[i]))
    ensures i < |s| ==> forall k :: i < k < |s| ==> !IsNumeral(s[k])
    ensures i == |s| ==> forall k :: 0 <= k < |s| ==> !IsNumeral(s[k])
  {
    if s == [] then 0
    else if IsNumeral(s[|s| - 1]) then |s| - 1
    else
      var j := LastNumeral(s[..|s| - 1]);
      if j == |s| - 1 then |s| else j
  }

  /** The two-digit number whose tens are `first` and whose units are `last`
      (`format!("{}{}", first, last).parse()`). */
  function TwoDigits(first: char, last: char): (n: nat)
    requires IsDigit(first) && IsDigit(last)
    ensures n < 100 && n / 10 == DigitValue(first) && n % 10 == DigitValue(last)
  {
    10 * DigitValue(first) + DigitValue(last)
  }

  /** `i` and `j` are the positions of the first and the last numeral of `line`. */
  predicate FirstAndLast(line: string, i: nat, j: nat) {
    i <= j < |line| && IsNumeral(line[i]) && IsNumeral(line[j]) &&
    (forall k :: 0 <= k < i ==> !IsNumeral(line[k])) && (forall k :: j < k < |line| ==> !IsNumeral(line[k]))
  }

  /** `parse_w_digits`: the first and last numerals as a two-digit number. */
  function ParseWithDigits(line: string): (r: Result<nat>)
    ensures r.Ok? <==> exists k :: 0 <= k < |line| && IsNumeral(line[k])
    ensures r.Ok? ==> exists i: nat, j: nat :: FirstAndLast(line, i, j) && r.value == TwoDigits(line[i], line[j])
  {
    var i := FirstNumeral(line);
    var j := LastNumeral(line);
    if i == |line| || j == |line| then
      assert forall k :: 0 <= k < |line| ==> !IsNumeral(line[k]);
      Err(line + " has no digits")
    else
      assert FirstAndLast(line, i, j);
      Ok(TwoDigits(line[i], line[j]))
  }

  // ---------------------------------------------------------------------------------------------
  // Spelled digits

  const SPELLED: seq<string> := ["one", "two", "three", "four", "five", "six", "seven", "eight", "nine"]

  /** `spelled_to_char`: "one" to "nine" and the numerals "0" to "9"; anything else is an error. */
  function SpelledToChar(s: string): (r: Result<char>)
    ensures r.Ok? <==> s in SPELLED || (|s| == 1 && IsDigit(s[0]))
    ensures r.Ok? ==> IsDigit(r.value)
    ensures |s| == 1 && IsDigit(s[0]) ==> r == Ok(s[0])
  {
    if s == "one" then Ok('1')
    else if s == "two" then Ok('2')
    else if s == "three" then Ok('3')
    else if s == "four" then Ok('4')
    else if s == "five" then Ok('5')
    else if s == "six" then Ok('6')
    else if s == "seven" then Ok('7')
    else if s == "eight" then Ok('8')
    else if s == "nine" then Ok('9')
    else if |s| == 1 && IsDigit(s[0]) then Ok(s[0])
    else Err(s + " not a valid number")
  }

  /** The first spelled digit, from the `k`-th on, that `t` starts with: the alternatives of the
      pattern are tried in order. */
  function SpelledPrefix(t: string, k: nat): (r: Option<string>)
    requires k <= |SPELLED|
    ensures r.Some? ==> r.value in SPELLED && StartsWith(t, r.value)
    ensures r.None? ==> forall j :: k <= j < |SPELLED| ==> !StartsWith(t, SPELLED[j])
    decreases |SPELLED| - k
  {
    if k == |SPELLED| then None
    else if StartsWith(t, SPELLED[k]) then Some(SPELLED[k])
    else SpelledPrefix(t, k + 1)
  }

  /** The token of the pattern `one|two|...|nine|\d` that starts at position `i`, if any; the
      alternatives all differ in their first two characters, so at most one matches. */
  function TokenAt(s: string, i: nat): Option<string>
    requires i <= |s|
  {
    var t := s[i..];
    match SpelledPrefix(t, 0)
    case Some(w) => Some(w)
    case None => if t != [] && IsDigit(t[0]) then Some([t[0]]) else None
  }

  /** A token is found where the text starts with it, and it is one `spelled_to_char` accepts. */
  lemma TokenIsSpelled(s: string, i: nat)
    requires i <= |s| && TokenAt(s, i).Some?
    ensures StartsWith(s[i..], TokenAt(s, i).value) && SpelledToChar(TokenAt(s, i).value).Ok?
  {
  }

  predicate HasToken(s: string, k: nat) {
    k < |s| && TokenAt(s, k).Some?
  }

  /** The digit a token stands for. */
  function TokenDigit(s: string, k: nat): (c: char)
    requires HasToken(s, k)
    ensures IsDigit(c)
  {
    TokenIsSpelled(s, k);
    SpelledToChar(TokenAt(s, k).value).value
  }

  /** `p` is where the leftmost token of `s` starts. */
  predicate FirstToken(s: string, p: nat) {
    HasToken(s, p) && forall k :: 0 <= k < p ==> TokenAt(s, k).None?
  }

  /** `p` is where the rightmost-starting token of `s` starts. */
  predicate LastToken(s: string, p: nat) {
    HasToken(s, p) && forall k :: p < k < |s| ==> TokenAt(s, k).None?
  }

  /** The least position from `i` below `n` that satisfies `P`, or `n` if there is none. */
  function LeftmostWhere(P: nat -> bool, i: nat, n: nat): (p: nat)
    requires i <= n
    ensures i <= p <= n && (p < n ==> P(p))
    ensures forall k :: i <= k < p ==> !P(k)
    decreases n - i
  {
    if i == n then n else if P(i) then i else LeftmostWhere(P, i + 1, n)
  }

  /** One past the greatest position below `i` that satisfies `P`, or 0 if there is none. */
  function RightmostEndWhere(P: nat -> bool, i: nat): (e: nat)
    ensures e <= i && (e > 0 ==> P(e - 1))
    ensures forall k :: e <= k < i ==> !P(k)
  {
    if i == 0 then 0 else if P(i - 1) then i else RightmostEndWhere(P, i - 1)
  }

  /** Where the search of `find_first_spelled` ends up: the start of the leftmost token, or with `end`
      the start of the rightmost-starting one; out of range when there is no token. */
  function TokenSearch(line: string, end: bool): int {
    var P := (k: nat) => HasToken(line, k);
    if end then RightmostEndWhere(P, |line|) - 1 else LeftmostWhere(P, 0, |line|)
  }

  lemma TokenSearchFinds(line: string, end: bool)
    requires 0 <= TokenSearch(line, end) < |line|
    ensures var p := TokenSearch(line, end); if end then LastToken(line, p) else FirstToken(line, p)
  {
    var P := (k: nat) => HasToken(line, k);
    var p := TokenSearch(line, end);
    assert P(p);
    forall k | 0 <= k < |line| && (if end then p < k else k < p)
      ensures TokenAt(line, k).None?
    {
      assert !P(k);
    }
  }

  lemma TokenSearchMisses(line: string, end: bool)
    requires !(0 <= TokenSearch(line, end) < |line|)
    ensures forall k :: 0 <= k < |line| ==> TokenAt(line, k).None?
  {
    var P := (k: nat) => HasToken(line, k);
    forall k: nat | k < |line|
      ensures TokenAt(line, k).None?
    {
      assert !P(k);
    }
  }

  /** `find_first_spelled`: the leftmost match of the pattern, or with `end` the match found after
      a greedy `.*`, which is the token starting rightmost. */
  function FindFirstSpelled(line: string, end: bool): (r: Result<char>)
    ensures r.Ok? <==> exists k :: 0 <= k < |line| && TokenAt(line, k).Some?
    ensures r.Ok? ==> exists p :: (if end then LastToken(line, p) else FirstToken(line, p)) && r.value == TokenDigit(line, p)
  {
    var p := TokenSearch(line, end);
    if !(0 <= p < |line|) then
      TokenSearchMisses(line, end);
      Err("No number found")
    else
      TokenSearchFinds(line, end);
      Ok(TokenDigit(line, p))
  }

  /** `parse_w_spelled`: the digits of the leftmost- and rightmost-starting tokens, even when
      tokens overlap. */
  function ParseWithSpelled(line: string): (r: Result<nat>)
    ensures r.Ok? <==> exists k :: 0 <= k < |line| && TokenAt(line, k).Some?
    ensures r.Ok? ==> exists i, j :: FirstToken(line, i) && LastToken(line, j) && r.value == TwoDigits(TokenDigit(line, i), TokenDigit(line, j))
  {
    var first :- FindFirstSpelled(line, false);
    var last :- FindFirstSpelled(line, true);
    Ok(TwoDigits(first, last))
  }

  /** A numeral is a token, so when part one succeeds on a line part two does too. */
  lemma NumeralIsToken(line: string, k: nat)
    requires k < |line| && IsNumeral(line[k])
    ensures TokenAt(line, k).Some?
  {
    assert line[k..][0] == line[k];
  }

  lemma PartOneThenPartTwo(line: string)
    requires ParseWithDigits(line).Ok?
    ensures ParseWithSpelled(line).Ok?
  {
    var k :| 0 <= k < |line| && IsNumeral(line[k]);
    NumeralIsToken(line, k);
  }

  // ---------------------------------------------------------------------------------------------
  // The two parts

  method Part1(input: string) returns (r: Result<nat>)
    ensures r == SumLines(Lines(input), ParseWithDigits)
  {
    r := Accumulate(input, ParseWithDigits);
  }

  method Part2(input: string) returns (r: Result<nat>)
    ensures r == SumLines(Lines(input), ParseWithSpelled)
  {
    r := Accumulate(input, ParseWithSpelled);
  }

  // ---------------------------------------------------------------------------------------------
  // Fixtures

  lemma FirstNumeralIs(s: string, i: nat)
    requires i < |s| && IsNumeral(s[i]) && forall k :: 0 <= k < i ==> !IsNumeral(s[k])
    ensures FirstNumeral(s) == i
  {
  }

  lemma LastNumeralIs(s: string, i: nat)
    requires i < |s| && IsNumeral(s[i]) && forall k :: i < k < |s| ==> !IsNumeral(s[k])
    ensures LastNumeral(s) == i
  {
  }

  lemma {:induction false} LeftmostIs(P: nat -> bool, p: nat, i: nat, n: nat)
    requires i <= p < n && P(p) && forall k :: i <= k < p ==> !P(k)
    ensures LeftmostWhere(P, i, n) == p
    decreases p - i
  {
    if i < p {
      LeftmostIs(P, p, i + 1, n);
    }
  }

  lemma {:induction false} RightmostIs(P: nat -> bool, p: nat, i: nat)
    requires p < i && P(p) && forall k :: p < k < i ==> !P(k)
    ensures RightmostEndWhere(P, i) == p + 1
  {
    if p < i - 1 {
      RightmostIs(P, p, i - 1);
    }
  }

  lemma FixtureOneTwo()
    ensures ParseWithDigits("1abc2") == Ok(12)
  {
    var s := "1abc2";
    FirstNumeralIs(s, 0);
    LastNumeralIs(s, 4);
  }

  lemma FixtureMiddle()
    ensures ParseWithDigits("pqr3stu8vwx") == Ok(38)
  {
    var s := "pqr3stu8vwx";
    FirstNumeralIs(s, 3);
    LastNumeralIs(s, 7);
  }

  lemma FixtureMany()
    ensures ParseWithDigits("a1b2c3d4e5f") == Ok(15)
  {
    var s := "a1b2c3d4e5f";
    FirstNumeralIs(s, 1);
    LastNumeralIs(s, 9);
  }

  predicate NoNumeral(s: string) {
    forall k :: 0 <= k < |s| ==> !IsNumeral(s[k])
  }

  /** A single numeral is both the first and the last digit. */
  lemma FixtureSingleDigit()
    ensures ParseWithDigits("treb7uchet") == Ok(77)
  {
    var a, b := "treb", "uchet";
    assert NoNumeral(a) && NoNumeral(b);
    var s := a + "7" + b;
    assert s == "treb7uchet";
    assert forall k :: 0 <= k < 4 ==> s[k] == a[k];
    assert forall k :: 4 < k < |s| ==> s[k] == b[k - 5];
    FirstNumeralIs(s, 4);
    LastNumeralIs(s, 4);
  }

  /** Text starting "eight" starts with the token "eight". */
  lemma EightFirst(s: string)
    requires |s| >= 5 && s[..5] == "eight"
    ensures TokenAt(s, 0) == Some("eight")
  {
    assert s[0..] == s && s[..3] == "eig" && s[..4] == "eigh";
  }

  /** Text ending "three" has the token "three" five from the end, and no token after it. */
  lemma ThreeLast(s: string, i: nat)
    requires i + 5 == |s| && s[i..] == "three"
    ensures TokenAt(s, i) == Some("three")
    ensures forall k :: i < k < |s| ==> TokenAt(s, k).None?
  {
    var t := s[i..];
    assert t[..3] == "thr" && t[..4] == "thre";
    HreeHasNone(s, i + 1);
  }

  /** No spelled digit from the `j`-th on is a prefix of `t`, so none is found from there. */
  lemma {:induction false} SpelledPrefixNone(t: string, j: nat)
    requires j <= |SPELLED| && forall m :: j <= m < |SPELLED| ==> !StartsWith(t, SPELLED[m])
    ensures SpelledPrefix(t, j).None?
    decreases |SPELLED| - j
  {
    if j < |SPELLED| {
      SpelledPrefixNone(t, j + 1);
    }
  }

  /** No token starts at a character that is not a numeral and that starts no spelled digit long
      enough to fit. */
  lemma NoTokenAt(s: string, k: nat)
    requires k < |s| && !IsDigit(s[k])
    requires forall m :: 0 <= m < |SPELLED| ==> |s| - k < |SPELLED[m]| || SPELLED[m][0] != s[k]
    ensures TokenAt(s, k).None?
  {
    var t := s[k..];
    forall m | 0 <= m < |SPELLED|
      ensures !StartsWith(t, SPELLED[m])
    {
      if |SPELLED[m]| <= |t| {
        assert t[..|SPELLED[m]|][0] == s[k];
      }
    }
    SpelledPrefixNone(t, 0);
  }

  /** Text ending "hree" has no token in its last four positions. */
  lemma HreeHasNone(s: string, i: nat)
    requires i + 4 == |s| && s[i..] == "hree"
    ensures forall k :: i <= k < |s| ==> TokenAt(s, k).None?
  {
    assert s[i] == 'h' && s[i + 1] == 'r' && s[i + 2] == 'e' && s[i + 3] == 'e' by {
      assert s[i..][0] == s[i] && s[i..][1] == s[i + 1] && s[i..][2] == s[i + 2] && s[i..][3] == s[i + 3];
    }
    NoTokenAt(s, i);
    NoTokenAt(s, i + 1);
    NoTokenAt(s, i + 2);
    NoTokenAt(s, i + 3);
  }

  /** The digit of the leftmost token, at `p`, is what `find_first_spelled` finds from the start. */
  lemma FirstSpelledIs(line: string, p: nat)
    requires p < |line| && TokenAt(line, p).Some? && forall k :: 0 <= k < p ==> TokenAt(line, k).None?
    ensures FindFirstSpelled(line, false) == SpelledToChar(TokenAt(line, p).value)
  {
    LeftmostIs((k: nat) => HasToken(line, k), p, 0, |line|);
  }

  /** The digit of the rightmost token, at `p`, is what `find_first_spelled` finds from the end. */
  lemma LastSpelledIs(line: string, p: nat)
    requires p < |line| && TokenAt(line, p).Some? && forall k :: p < k < |line| ==> TokenAt(line, k).None?
    ensures FindFirstSpelled(line, true) == SpelledToChar(TokenAt(line, p).value)
  {
    RightmostIs((k: nat) => HasToken(line, k), p, |line|);
  }

  /** "eightwothree": "eight" starts first and "three" starts last. */
  lemma FixtureOverlapFirst(s: string)
    requires |s| == 12 && s[..5] == "eight" && s[5..7] == "wo" && s[7..] == "three"
    ensures ParseWithSpelled(s) == Ok(83)
  {
    EightFirst(s);
    ThreeLast(s, 7);
    FirstSpelledIs(s, 0);
    LastSpelledIs(s, 7);
    assert FindFirstSpelled(s, false) == Ok('8') && FindFirstSpelled(s, true) == Ok('3');
  }

  /** "zoneight234": "one" overlaps "eight"; the last token is the numeral 4. */
  lemma FixtureOverlapLast(s: string)
    requires |s| == 11 && s[..8] == "zoneight" && s[8..] == "234"
    ensures ParseWithSpelled(s) == Ok(14)
  {
    assert TokenAt(s, 0).None? by {
      assert s[0] == s[..8][0] == 'z';
      NoTokenAt(s, 0);
    }
    assert TokenAt(s, 1) == Some("one") by {
      assert s[1..][..3] == "one";
    }
    assert TokenAt(s, 10) == Some("4") by {
      assert s[10] == s[8..][2] == '4';
      assert s[10..] == [s[10]];
    }
    FirstSpelledIs(s, 1);
    LastSpelledIs(s, 10);
    assert FindFirstSpelled(s, false) == Ok('1') && FindFirstSpelled(s, true) == Ok('4');
  }
}
