/** 2023 day 4: scratchcards. Each card lists winning numbers and the numbers one has; the
    matches score points, and in part two each card wins copies of the cards after it. */
module Y2023Day04 {
  import opened Outcomes
  import opened Text
  import opened LineSums
  import opened Numbers

  datatype Card = Card(winners: seq<nat>, numbers: seq<nat>)

  // ---------------------------------------------------------------------------------------------
  // Parsing

  /** One number of a list; anything that is not a `u128` is an error naming the whole list. */
  function ListNumber(list: string, w: string): (r: Result<nat>)
    ensures r.Ok? <==> ParseUnsigned(w, U128_BOUND).Some?
    ensures r.Ok? ==> ParseUnsigned(w, U128_BOUND) == Some(r.value)
    ensures r.Err? ==> r.msg == "Malformed list: " + list
  {
    if ParseUnsigned(w, U128_BOUND).Some? then Ok(ParseUnsigned(w, U128_BOUND).value) else Err("Malformed list: " + list)
  }

  function ParseListWord(list: string): string -> Result<nat> {
    (w: string) => ListNumber(list, w)
  }

  /** `parse_number_list`: the whitespace-separated numbers of `list`, or an error naming the list
      when one of them is not a `u128`. */
  function ParseNumberList(list: string): (r: Result<seq<nat>>)
    ensures r.Err? ==> r.msg == "Malformed list: " + list
  {
    CollectAll(Words(list), ParseListWord(list))
  }

  /** The words parse exactly when every one is a `u128`, and then to their values. */
  lemma NumberWordsValues(list: string, ws: seq<string>)
    ensures var r := CollectAll(ws, ParseListWord(list));
      (r.Ok? <==> forall i :: 0 <= i < |ws| ==> ParseUnsigned(ws[i], U128_BOUND).Some?) &&
      (r.Ok? ==> |r.value| == |ws| && forall i :: 0 <= i < |ws| ==> ParseUnsigned(ws[i], U128_BOUND) == Some(r.value[i]))
  {
    var f := ParseListWord(list);
    forall i | 0 <= i < |ws|
      ensures f(ws[i]) == ListNumber(list, ws[i])
    {
    }
  }

  /** `Card::parse`: the text after the first ':' holds the winners, then '|', then the numbers. */
  function ParseCard(line: string): (r: Result<Card>)
    ensures SplitOnce(line, ":").None? ==> r == Err("Malformed line: " + line)
    ensures SplitOnce(line, ":").Some? && SplitOnce(SplitOnce(line, ":").value.1, "|").None? ==> r == Err("Malformed line: " + line)
  {
    match SplitOnce(line, ":")
    case None => Err("Malformed line: " + line)
    case Some((_, res)) =>
      match SplitOnce(res, "|")
      case None => Err("Malformed line: " + line)
      case Some((a, b)) =>
        var winners :- ParseNumberList(a);
        var numbers :- ParseNumberList(b);
        Ok(Card(winners, numbers))
  }

  /** The decimal texts of numbers. */
  function Decimals(ns: seq<nat>): (ds: seq<string>)
    ensures |ds| == |ns| && forall i :: 0 <= i < |ns| ==> ds[i] == Decimal(ns[i])
  {
    seq(|ns|, i requires 0 <= i < |ns| => Decimal(ns[i]))
  }

  /** A card as the puzzle prints it, numbers separated by single spaces. */
  function CardText(id: nat, c: Card): string {
    "Card " + Decimal(id) + ":" + " " + Join(Decimals(c.winners), " ") + " | " + Join(Decimals(c.numbers), " ")
  }

  predicate Fits(ns: seq<nat>) {
    forall i :: 0 <= i < |ns| ==> ns[i] < U128_BOUND
  }

  /** The decimal texts are words, and none of them holds a separator. */
  lemma DecimalsAreWords(ns: seq<nat>, c: char)
    requires !IsDigit(c)
    ensures var ds := Decimals(ns);
      forall i :: 0 <= i < |ds| ==> ds[i] != [] && c !in ds[i] && forall k :: 0 <= k < |ds[i]| ==> !IsAsciiWhitespace(ds[i][k])
  {
    var ds := Decimals(ns);
    forall i | 0 <= i < |ds|
      ensures ds[i] != [] && c !in ds[i] && forall k :: 0 <= k < |ds[i]| ==> !IsAsciiWhitespace(ds[i][k])
    {
      NotInDigits(ds[i], c);
    }
  }

  /** A list of numbers printed with spaces around it parses back to the numbers. */
  lemma NumberListRoundTrip(ns: seq<nat>, pad: string)
    requires Fits(ns) && (pad == "" || pad == " ")
    ensures ParseNumberList(" " + Join(Decimals(ns), " ") + pad) == Ok(ns)
  {
    var ds := Decimals(ns);
    var list := " " + Join(ds, " ") + pad;
    PaddedWords(ns, pad);
    forall i | 0 <= i < |ns|
      ensures ParseUnsigned(ds[i], U128_BOUND) == Some(ns[i])
    {
      DecimalRoundTrip(ns[i], U128_BOUND);
    }
    NumberWordsValues(list, ds);
    var r := CollectAll(ds, ParseListWord(list));
    assert r.Ok? && |r.value| == |ns|;
    assert forall i :: 0 <= i < |ns| ==> r.value[i] == ns[i];
    assert r.value == ns;
    assert Words(list) == ds;
    assert ParseNumberList(list) == r;
  }

  lemma PaddedWords(ns: seq<nat>, pad: string)
    requires pad == "" || pad == " "
    ensures Words(" " + Join(Decimals(ns), " ") + pad) == Decimals(ns)
  {
    var ds := Decimals(ns);
    DecimalsAreWords(ns, ' ');
    WordsJoin(ds);
    WordsSpaceBefore(Join(ds, " ") + pad);
    assert " " + Join(ds, " ") + pad == " " + (Join(ds, " ") + pad);
    if pad == " " {
      WordsSpaceAfter(Join(ds, " "));
    } else {
      assert Join(ds, " ") + pad == Join(ds, " ");
    }
  }

  /** Parsing a printed card gives back its numbers. */
  lemma CardRoundTrip(id: nat, c: Card)
    requires Fits(c.winners) && Fits(c.numbers)
    ensures ParseCard(CardText(id, c)) == Ok(c)
  {
    var head := "Card " + Decimal(id);
    var w := Join(Decimals(c.winners), " ");
    var n := Join(Decimals(c.numbers), " ");
    NotInDigits(Decimal(id), ':');
    assert ':' !in head;
    assert CardText(id, c) == head + ":" + (" " + w + " | " + n);
    SplitOnceAt(head, ":", " " + w + " | " + n);
    DecimalsAreWords(c.winners, '|');
    JoinExcludes(Decimals(c.winners), " ", '|');
    assert '|' !in " " + w + " ";
    assert " " + w + " | " + n == (" " + w + " ") + "|" + (" " + n);
    SplitOnceAt(" " + w + " ", "|", " " + n);
    NumberListRoundTrip(c.winners, " ");
    NumberListRoundTrip(c.numbers, "");
    assert " " + n + "" == " " + n;
  }

  // ---------------------------------------------------------------------------------------------
  // Matches and points

  /** How many winners (counted with repetition) one has. */
  function MatchCount(winners: seq<nat>, numbers: seq<nat>): nat {
    if winners == [] then 0
    else MatchCount(winners[..|winners| - 1], numbers) + if winners[|winners| - 1] in numbers then 1 else 0
  }

  /** The count is the number of positions of the winners list that hold a number one has. */
  lemma {:induction false} MatchCountIsPositions(winners: seq<nat>, numbers: seq<nat>)
    ensures MatchCount(winners, numbers) == |set i | 0 <= i < |winners| && winners[i] in numbers|
  {
    var all := set i | 0 <= i < |winners| && winners[i] in numbers;
    if winners != [] {
      var n := |winners| - 1;
      var init := winners[..n];
      MatchCountIsPositions(init, numbers);
      var before := set i | 0 <= i < n && init[i] in numbers;
      assert before == set i | 0 <= i < n && winners[i] in numbers;
      if winners[n] in numbers {
        assert all == before + {n};
      } else {
        assert all == before;
      }
    }
  }

  lemma {:induction false} MatchCountBound(winners: seq<nat>, numbers: seq<nat>)
    ensures MatchCount(winners, numbers) <= |winners|
    ensures MatchCount(winners, numbers) == |winners| <==> forall i :: 0 <= i < |winners| ==> winners[i] in numbers
  {
    if winners != [] {
      var n := |winners| - 1;
      MatchCountBound(winners[..n], numbers);
      assert forall i :: 0 <= i < n ==> winners[..n][i] == winners[i];
    }
  }

  /** `n_matches`. */
  method NMatches(c: Card) returns (count: nat)
    ensures count == MatchCount(c.winners, c.numbers)
  {
    count := 0;
    for i := 0 to |c.winners|
      invariant count == MatchCount(c.winners[..i], c.numbers)
    {
      assert c.winners[..i + 1][..i] == c.winners[..i];
      if c.winners[i] in c.numbers {
        count := count + 1;
      }
    }
    assert c.winners[..|c.winners|] == c.winners;
  }

  function Pow2(n: nat): (p: nat)
    ensures p >= 1
  {
    if n == 0 then 1 else 2 * Pow2(n - 1)
  }

  /** The points of a card: nothing without a match, one for the first and doubled for each more. */
  function Points(matches: nat): nat {
    if matches == 0 then 0 else Pow2(matches - 1)
  }

  /** `score`: the loop doubles on each match after the first. */
  method Score(c: Card) returns (score: nat)
    ensures score == Points(MatchCount(c.winners, c.numbers))
  {
    score := 0;
    for i := 0 to |c.winners|
      invariant score == Points(MatchCount(c.winners[..i], c.numbers))
    {
      assert c.winners[..i + 1][..i] == c.winners[..i];
      if c.winners[i] in c.numbers {
        if score == 0 {
          score := 1;
        } else {
          score := score * 2;
        }
      }
    }
    assert c.winners[..|c.winners|] == c.winners;
  }

  /** One line of `day04_1`: the points of its card. */
  function CardPoints(line: string): Result<nat> {
    var c :- ParseCard(line);
    Ok(Points(MatchCount(c.winners, c.numbers)))
  }

  method Part1(input: string) returns (r: Result<nat>)
    ensures r == SumLines(Lines(input), CardPoints)
  {
    r := Accumulate(input, CardPoints);
  }

  // ---------------------------------------------------------------------------------------------
  // Part two: copies

  /** The counts after card `i` with `m` matches has added its count to the next `m` cards. */
  function Win(counts: seq<nat>, i: nat, m: nat): (r: seq<nat>)
    requires i < |counts|
    ensures |r| == |counts|
  {
    seq(|counts|, j requires 0 <= j < |counts| => if i < j <= i + m then counts[j] + counts[i] else counts[j])
  }

  /** The counts after the first `i` cards have been processed, `ms` being the matches of each card. */
  function CountsAfter(ms: seq<nat>, i: nat): (r: seq<nat>)
    requires i <= |ms|
    ensures |r| == |ms|
  {
    if i == 0 then seq(|ms|, _ => 1) else Win(CountsAfter(ms, i - 1), i - 1, ms[i - 1])
  }

  /** The copies of card `j` once the cards before `k` have been processed: the original, and for
      each earlier card `i < k` whose matches reach `j`, as many copies as card `i` ended with. */
  function Reached(ms: seq<nat>, j: nat, k: nat): (n: nat)
    requires j < |ms| && k <= |ms|
    ensures n >= 1
    decreases k
  {
    if k == 0 then 1
    else
      var i := k - 1;
      Reached(ms, j, i) + if i < j <= i + ms[i] then Reached(ms, i, i) else 0
  }

  /** The number of copies card `j` ends with. */
  function Copies(ms: seq<nat>, j: nat): nat
    requires j < |ms|
  {
    Reached(ms, j, j)
  }

  /** No card wins copies of itself or of an earlier card. */
  lemma {:induction false} ReachedSettles(ms: seq<nat>, j: nat, k: nat)
    requires j < |ms| && j <= k <= |ms|
    ensures Reached(ms, j, k) == Copies(ms, j)
    decreases k
  {
    if k > j {
      ReachedSettles(ms, j, k - 1);
    }
  }

  /** The loop of `day04_2` computes, for every card, its original plus the copies won from
      earlier cards. */
  lemma {:induction false} CountsAfterReached(ms: seq<nat>, k: nat)
    requires k <= |ms|
    ensures forall j :: 0 <= j < |ms| ==> CountsAfter(ms, k)[j] == Reached(ms, j, k)
  {
    if k > 0 {
      var i := k - 1;
      CountsAfterReached(ms, i);
      forall j | 0 <= j < |ms|
        ensures CountsAfter(ms, k)[j] == Reached(ms, j, k)
      {
        assert CountsAfter(ms, i)[i] == Reached(ms, i, i);
      }
    }
  }

  /** Every card ends with at least its original. */
  lemma FinalCounts(ms: seq<nat>)
    ensures forall j :: 0 <= j < |ms| ==> CountsAfter(ms, |ms|)[j] == Copies(ms, j) >= 1
  {
    CountsAfterReached(ms, |ms|);
    forall j | 0 <= j < |ms|
      ensures Reached(ms, j, |ms|) == Copies(ms, j)
    {
      ReachedSettles(ms, j, |ms|);
    }
  }

  /** There are at least as many cards in the end as there were to begin with. */
  lemma {:induction false} AtLeastOnePerCard(counts: seq<nat>)
    requires forall j :: 0 <= j < |counts| ==> counts[j] >= 1
    ensures Sum(counts) >= |counts|
  {
    if counts != [] {
      var n := |counts| - 1;
      assert forall j :: 0 <= j < n ==> counts[..n][j] == counts[j];
      AtLeastOnePerCard(counts[..n]);
    }
  }

  /** The matches of every card. */
  function AllMatches(cards: seq<Card>): (ms: seq<nat>)
    ensures |ms| == |cards| && forall i :: 0 <= i < |cards| ==> ms[i] == MatchCount(cards[i].winners, cards[i].numbers)
  {
    seq(|cards|, i requires 0 <= i < |cards| => MatchCount(cards[i].winners, cards[i].numbers))
  }

  /** The card counts of `day04_2`, updated in place: card `i` adds its count to the counts of the
      next `n_matches` cards that exist. */
  method WinCopies(cards: seq<Card>) returns (total: nat)
    ensures total == Sum(CountsAfter(AllMatches(cards), |cards|))
  {
    ghost var ms := AllMatches(cards);
    var counts := new nat[|cards|](_ => 1);
    assert counts[..] == CountsAfter(ms, 0);
    for i := 0 to |cards|
      invariant counts[..] == CountsAfter(ms, i)
    {
      var cardCount := counts[i];
      var score := NMatches(cards[i]);
      if score == 0 {
        assert Win(counts[..], i, 0) == counts[..];
        continue;
      }
      ghost var before := counts[..];
      for j := i + 1 to i + 1 + score
        invariant counts.Length == |before|
        invariant forall k :: 0 <= k < counts.Length ==> counts[k] == if i < k < j then before[k] + cardCount else before[k]
      {
        if j < counts.Length {
          counts[j] := counts[j] + cardCount;
        }
      }
      assert counts[..] == Win(before, i, score);
    }
    total := SumArray(counts);
  }

  /** `.iter().sum()`. */
  method SumArray(a: array<nat>) returns (s: nat)
    ensures s == Sum(a[..])
  {
    s := 0;
    for i := 0 to a.Length
      invariant s == Sum(a[..i])
    {
      assert a[..i + 1][..i] == a[..i];
      s := s + a[i];
    }
    assert a[..a.Length] == a[..];
  }

  /** `day04_2`: every line must hold a card; the result is the number of cards in the end. */
  method Part2(input: string) returns (r: Result<nat>)
    ensures r.Ok? <==> CollectAll(Lines(input), ParseCard).Ok?
    ensures r.Err? ==> r == Err(CollectAll(Lines(input), ParseCard).msg)
    ensures r.Ok? ==> var cards := CollectAll(Lines(input), ParseCard).value;
      r.value == Sum(CountsAfter(AllMatches(cards), |cards|)) && r.value >= |cards|
  {
    var cards := CollectAll(Lines(input), ParseCard);
    if cards.Err? {
      return Err(cards.msg);
    }
    var total := WinCopies(cards.value);
    FinalCounts(AllMatches(cards.value));
    AtLeastOnePerCard(CountsAfter(AllMatches(cards.value), |cards.value|));
    return Ok(total);
  }

  // ---------------------------------------------------------------------------------------------
  // The sample cards

  function SampleCards(): seq<Card> {
    [Card([41, 48, 83, 86, 17], [83, 86, 6, 31, 17, 9, 48, 53]),
     Card([13, 32, 20, 16, 61], [61, 30, 68, 82, 17, 32, 24, 19]),
     Card([1, 21, 53, 59, 44], [69, 82, 63, 72, 16, 21, 14, 1]),
     Card([41, 92, 73, 84, 69], [59, 84, 76, 51, 58, 5, 54, 83]),
     Card([87, 83, 26, 28, 32], [88, 30, 70, 12, 93, 22, 82, 36]),
     Card([31, 18, 13, 56, 72], [74, 77, 10, 23, 35, 67, 36, 11])]
  }

  /** The matches of five winners, one at a time. */
  lemma FiveWinners(c: Card)
    requires |c.winners| == 5
    ensures MatchCount(c.winners, c.numbers) ==
      (if c.winners[0] in c.numbers then 1 else 0) + (if c.winners[1] in c.numbers then 1 else 0) +
      (if c.winners[2] in c.numbers then 1 else 0) + (if c.winners[3] in c.numbers then 1 else 0) +
      (if c.winners[4] in c.numbers then 1 else 0)
  {
    var w := c.winners;
    assert w[..5] == w && w[..0] == [];
    forall k | 0 < k <= 5
      ensures MatchCount(w[..k], c.numbers) == MatchCount(w[..k - 1], c.numbers) + if w[k - 1] in c.numbers then 1 else 0
    {
      assert w[..k][..k - 1] == w[..k - 1];
    }
  }

  lemma SampleCard1()
    ensures MatchCount([41, 48, 83, 86, 17], [83, 86, 6, 31, 17, 9, 48, 53]) == 4
  {
    FiveWinners(Card([41, 48, 83, 86, 17], [83, 86, 6, 31, 17, 9, 48, 53]));
  }

  lemma SampleCard2()
    ensures MatchCount([13, 32, 20, 16, 61], [61, 30, 68, 82, 17, 32, 24, 19]) == 2
  {
    FiveWinners(Card([13, 32, 20, 16, 61], [61, 30, 68, 82, 17, 32, 24, 19]));
  }

  lemma SampleCard3()
    ensures MatchCount([1, 21, 53, 59, 44], [69, 82, 63, 72, 16, 21, 14, 1]) == 2
  {
    FiveWinners(Card([1, 21, 53, 59, 44], [69, 82, 63, 72, 16, 21, 14, 1]));
  }

  lemma SampleCard4()
    ensures MatchCount([41, 92, 73, 84, 69], [59, 84, 76, 51, 58, 5, 54, 83]) == 1
  {
    FiveWinners(Card([41, 92, 73, 84, 69], [59, 84, 76, 51, 58, 5, 54, 83]));
  }

  lemma SampleCard5()
    ensures MatchCount([87, 83, 26, 28, 32], [88, 30, 70, 12, 93, 22, 82, 36]) == 0
  {
    FiveWinners(Card([87, 83, 26, 28, 32], [88, 30, 70, 12, 93, 22, 82, 36]));
  }

  lemma SampleCard6()
    ensures MatchCount([31, 18, 13, 56, 72], [74, 77, 10, 23, 35, 67, 36, 11]) == 0
  {
    FiveWinners(Card([31, 18, 13, 56, 72], [74, 77, 10, 23, 35, 67, 36, 11]));
  }

  /** The sample cards have 4, 2, 2, 1, 0 and 0 matches. */
  lemma SampleMatches()
    ensures AllMatches(SampleCards()) == [4, 2, 2, 1, 0, 0]
  {
    SampleCard1();
    SampleCard2();
    SampleCard3();
    SampleCard4();
    SampleCard5();
    SampleCard6();
  }

  /** Their points are 8, 2, 2, 1, 0 and 0. */
  lemma SamplePoints()
    ensures forall i :: 0 <= i < 6 ==> Points(AllMatches(SampleCards())[i]) == [8, 2, 2, 1, 0, 0][i]
  {
    SampleMatches();
    assert Pow2(3) == 8;
  }

  /** The sample ends with 1, 2, 4, 8, 14 and 1 copies: 30 cards. */
  lemma SampleCopies()
    ensures CountsAfter([4, 2, 2, 1, 0, 0], 6) == [1, 2, 4, 8, 14, 1]
    ensures Sum([1, 2, 4, 8, 14, 1]) == 30
  {
    var ms := [4, 2, 2, 1, 0, 0];
    assert CountsAfter(ms, 0) == [1, 1, 1, 1, 1, 1];
    assert CountsAfter(ms, 1) == [1, 2, 2, 2, 2, 1];
    assert CountsAfter(ms, 2) == [1, 2, 4, 4, 2, 1];
    assert CountsAfter(ms, 3) == [1, 2, 4, 8, 6, 1];
    assert CountsAfter(ms, 4) == [1, 2, 4, 8, 14, 1];
    assert CountsAfter(ms, 5) == [1, 2, 4, 8, 14, 1];
    var t := [1, 2, 4, 8, 14, 1];
    assert t[..5] == [1, 2, 4, 8, 14] && t[..5][..4] == [1, 2, 4, 8] && t[..5][..4][..3] == [1, 2, 4];
    assert [1, 2, 4][..2] == [1, 2] && [1, 2][..1] == [1] && [1][..0] == [];
    assert Sum([1]) == 1 && Sum([1, 2]) == 3 && Sum([1, 2, 4]) == 7;
    assert Sum([1, 2, 4, 8]) == 15 && Sum([1, 2, 4, 8, 14]) == 29;
  }

  /** Part two of the sample ends with 30 scratchcards. */
  lemma SamplePart2()
    ensures Sum(CountsAfter(AllMatches(SampleCards()), |SampleCards()|)) == 30
  {
    SampleMatches();
    SampleCopies();
  }
}
