/** 2023 day 7: Camel Cards. Hands of five cards are ranked by their type, then card by card; the
    winnings add up each bid times the hand's rank. Part 2 reads J as a joker that counts as the
    most frequent other card but ranks below every card. */
module Y2023Day07 {
  import opened Outcomes
  import opened Text
  import opened Numbers
  import opened Sorting
  import opened Counters
  import opened Common

  /** `HandType`, declared weakest first, so its derived order is the declaration order. */
  datatype HandType = HighCard | OnePair | TwoPair | ThreeOfAKind | FullHouse | FourOfAKind | FiveOfAKind

  function TypeRank(t: HandType): (n: nat)
    ensures n <= 6
    ensures t == HighCard <==> n == 0
    ensures t == FiveOfAKind <==> n == 6
  {
    match t
    case HighCard => 0
    case OnePair => 1
    case TwoPair => 2
    case ThreeOfAKind => 3
    case FullHouse => 4
    case FourOfAKind => 5
    case FiveOfAKind => 6
  }

  /** The two `Card` implementations: `NormalCard` and `JokerCard`. */
  datatype Rules = Normal | Joker

  /** A hand: the values of its five cards (the `u8` inside the card) and its bid. */
  datatype Hand = Hand(cards: seq<nat>, bid: nat)

  // ---------------------------------------------------------------------------------------------
  // Cards

  /** The card characters, weakest first, under each set of rules. */
  function CardChars(rules: Rules): (s: string)
    ensures |s| == 13
  {
    if rules == Normal then "23456789TJQKA" else "J23456789TQKA"
  }

  /** `NormalCard::parse`. */
  function NormalCard(c: char): (r: Result<nat>)
    ensures r.Ok? ==> 2 <= r.value <= 14
  {
    match c
    case '2' => Ok(2)
    case '3' => Ok(3)
    case '4' => Ok(4)
    case '5' => Ok(5)
    case '6' => Ok(6)
    case '7' => Ok(7)
    case '8' => Ok(8)
    case '9' => Ok(9)
    case 'T' => Ok(10)
    case 'J' => Ok(11)
    case 'Q' => Ok(12)
    case 'K' => Ok(13)
    case 'A' => Ok(14)
    case _ => Err("unrecognized card '" + [c] + "'")
  }

  /** `JokerCard::parse`: as `NormalCard`, except that J is 0. */
  function JokerCard(c: char): (r: Result<nat>)
    ensures r.Ok? ==> r.value <= 14 && (r.value == 0 <==> c == 'J')
  {
    if c == 'J' then Ok(0) else NormalCard(c)
  }

  function ParseCard(rules: Rules, c: char): Result<nat> {
    if rules == Normal then NormalCard(c) else JokerCard(c)
  }

  /** The cards parse exactly from the listed characters. */
  lemma CardsListed(rules: Rules, c: char)
    ensures ParseCard(rules, c).Ok? <==> c in CardChars(rules)
  {
  }

  /** The card values ascend along the list. */
  lemma CardsAscend(rules: Rules, k: nat)
    requires k < 12
    ensures ParseCard(rules, CardChars(rules)[k]).Ok? && ParseCard(rules, CardChars(rules)[k + 1]).Ok?
    ensures ParseCard(rules, CardChars(rules)[k]).value < ParseCard(rules, CardChars(rules)[k + 1]).value
  {
  }

  /** The joker is below every other card. */
  lemma JokerLowest(c: char)
    requires JokerCard(c).Ok? && c != 'J'
    ensures JokerCard('J') == Ok(0) && JokerCard(c).value > 0
  {
  }

  predicate IsCardValue(rules: Rules, v: nat) {
    if rules == Normal then 2 <= v <= 14 else v == 0 || 2 <= v <= 10 || 12 <= v <= 14
  }

  /** The character of a card value. */
  function CardChar(rules: Rules, v: nat): (c: char)
    requires IsCardValue(rules, v)
    ensures ParseCard(rules, c) == Ok(v)
  {
    if v == 0 then 'J'
    else if v <= 9 then (('0' as int) + v) as char
    else if v == 10 then 'T'
    else if v == 11 then 'J'
    else if v == 12 then 'Q'
    else if v == 13 then 'K'
    else 'A'
  }

  // ---------------------------------------------------------------------------------------------
  // Parsing

  function CardParser(rules: Rules): char -> Result<nat> {
    c => ParseCard(rules, c)
  }

  /** `Hand::parse`: the cards, one space, the bid. */
  function ParseHand(rules: Rules, line: string): (r: Result<Hand>)
    ensures SplitOnce(line, " ").None? ==> r == Err("invalid hand " + line)
    ensures SplitOnce(line, " ").Some? ==> r == ParseHandParts(rules, SplitOnce(line, " ").value.0, SplitOnce(line, " ").value.1)
    ensures r.Ok? ==> |r.value.cards| == 5 && r.value.bid < U64_LIMIT
  {
    match SplitOnce(line, " ")
    case None => Err("invalid hand " + line)
    case Some((cards, bid)) => ParseHandParts(rules, cards, bid)
  }

  /** Every card is an ASCII character. */
  lemma CardsAscii(rules: Rules, cards: string)
    requires forall k :: 0 <= k < |cards| ==> ParseCard(rules, cards[k]).Ok?
    ensures Utf8Len(cards) == |cards|
  {
    assert IsAscii(cards) by {
      forall k | 0 <= k < |cards|
        ensures (cards[k] as int) < 0x80
      {
        assert ParseCard(rules, cards[k]).Ok?;
      }
    }
    Utf8LenAscii(cards);
  }

  /** The hand once split at the first space: five bytes of cards and a `u64` bid. The length is
      `str::len`, in bytes, so five bytes with a multi-byte character among them pass the length
      check and fail on that character. */
  function ParseHandParts(rules: Rules, cards: string, bid: string): (r: Result<Hand>)
    ensures r.Ok? <==> Utf8Len(cards) == 5 && (forall k :: 0 <= k < |cards| ==> ParseCard(rules, cards[k]).Ok?) &&
                       ParseUnsigned(bid, U64_LIMIT).Some?
    ensures r.Ok? ==> |cards| == 5 && |r.value.cards| == 5 && Some(r.value.bid) == ParseUnsigned(bid, U64_LIMIT)
    ensures r.Ok? ==> forall k :: 0 <= k < 5 ==> ParseCard(rules, cards[k]) == Ok(r.value.cards[k])
    ensures Utf8Len(cards) != 5 ==> r == Err("invalid hand " + cards + ", expected 5 cards")
    ensures Utf8Len(cards) == 5 && CollectAll(cards, CardParser(rules)).Err? ==>
      r == Err(CollectAll(cards, CardParser(rules)).msg)
    ensures Utf8Len(cards) == 5 && CollectAll(cards, CardParser(rules)).Ok? && ParseUnsigned(bid, U64_LIMIT).None? ==>
      IntError(bid, false, U64_LIMIT).Some? && r == Err(IntErrorMessage(bid, false, U64_LIMIT))
  {
    if Utf8Len(cards) != 5 then Err("invalid hand " + cards + ", expected 5 cards")
    else
      var cs :- CollectAll(cards, CardParser(rules));
      CardsAscii(rules, cards);
      match ParseUnsigned(bid, U64_LIMIT)
      case None => ParseUnsignedError(bid, U64_LIMIT); Err(IntErrorMessage(bid, false, U64_LIMIT))
      case Some(b) => Ok(Hand(cs, b))
  }

  /** "éAAA" is five bytes but four characters: the length check passes and 'é' is the error. */
  lemma MultibyteFirstCard(rules: Rules, bid: string)
    ensures ParseHandParts(rules, "éAAA", bid) == Err("unrecognized card 'é'")
  {
    assert Utf8Len("éAAA") == 5;
    assert CardParser(rules)('é').Err?;
    assert "éAAA"[..0] == [];
    CollectAllFailsAt("éAAA", 0, CardParser(rules));
  }

  /** "AAAAé" is five characters but six bytes: the length check fails first. */
  lemma MultibyteLastCard(rules: Rules, bid: string)
    ensures ParseHandParts(rules, "AAAAé", bid) == Err("invalid hand " + "AAAAé" + ", expected 5 cards")
  {
    assert Utf8Len("AAAAé") == 6;
  }

  /** A negative bid is an invalid digit for the unsigned `u64`. */
  lemma NegativeBid(rules: Rules, cards: string)
    requires Utf8Len(cards) == 5 && CollectAll(cards, CardParser(rules)).Ok?
    ensures ParseHandParts(rules, cards, "-5") == Err("invalid digit found in string")
  {
    assert IntError("-5", false, U64_LIMIT) == Some(InvalidDigit);
  }

  function HandParser(rules: Rules): string -> Result<Hand> {
    line => ParseHand(rules, line)
  }

  /** `HandList::parse`: one hand per line. */
  function ParseHandList(rules: Rules, input: string): (r: Result<seq<Hand>>)
    ensures r.Ok? ==> |r.value| == |Lines(input)| && forall i :: 0 <= i < |r.value| ==> |r.value[i].cards| == 5
  {
    CollectAll(Lines(input), HandParser(rules))
  }

  // ---------------------------------------------------------------------------------------------
  // Round trip

  predicate ValidHand(rules: Rules, h: Hand) {
    |h.cards| == 5 && (forall k :: 0 <= k < 5 ==> IsCardValue(rules, h.cards[k])) && h.bid < U64_LIMIT
  }

  function CardsText(rules: Rules, cards: seq<nat>): (s: string)
    requires forall k :: 0 <= k < |cards| ==> IsCardValue(rules, cards[k])
    ensures |s| == |cards| && forall k :: 0 <= k < |cards| ==> s[k] == CardChar(rules, cards[k])
  {
    seq(|cards|, k requires 0 <= k < |cards| => CardChar(rules, cards[k]))
  }

  function HandText(rules: Rules, h: Hand): string
    requires ValidHand(rules, h)
  {
    CardsText(rules, h.cards) + " " + Decimal(h.bid)
  }

  lemma HandPartsRoundTrip(rules: Rules, h: Hand)
    requires ValidHand(rules, h)
    ensures ParseHandParts(rules, CardsText(rules, h.cards), Decimal(h.bid)) == Ok(h)
  {
    DecimalRoundTrip(h.bid, U64_LIMIT);
    var cards := CardsText(rules, h.cards);
    forall k | 0 <= k < 5
      ensures ParseCard(rules, cards[k]) == Ok(h.cards[k])
    {
    }
    CardsAscii(rules, cards);
    var r := ParseHandParts(rules, cards, Decimal(h.bid));
    assert r.Ok?;
    assert r.value.cards == h.cards;
  }

  /** A printed hand parses back to the hand. */
  lemma HandRoundTrip(rules: Rules, h: Hand)
    requires ValidHand(rules, h)
    ensures ParseHand(rules, HandText(rules, h)) == Ok(h)
  {
    var cards := CardsText(rules, h.cards);
    assert ' ' !in cards by {
      forall k | 0 <= k < |cards|
        ensures cards[k] != ' '
      {
        assert ParseCard(rules, cards[k]).Ok?;
      }
    }
    SplitOnceAt(cards, " ", Decimal(h.bid));
    HandPartsRoundTrip(rules, h);
  }

  lemma HandLine(rules: Rules, h: Hand)
    requires ValidHand(rules, h)
    ensures HandText(rules, h) != [] && '\n' !in HandText(rules, h)
  {
    var cards := CardsText(rules, h.cards);
    assert '\n' !in cards by {
      forall k | 0 <= k < |cards|
        ensures cards[k] != '\n'
      {
        assert ParseCard(rules, cards[k]).Ok?;
      }
    }
    assert '\n' !in Decimal(h.bid) by {
      assert AllDigits(Decimal(h.bid));
    }
  }

  /** Printed hands, one per line, parse back to the hands. */
  lemma HandListRoundTrip(rules: Rules, hs: seq<Hand>)
    requires forall i :: 0 <= i < |hs| ==> ValidHand(rules, hs[i])
    ensures ParseHandList(rules, Join(seq(|hs|, i requires 0 <= i < |hs| => HandText(rules, hs[i])), "\n")) == Ok(hs)
  {
    var lines := seq(|hs|, i requires 0 <= i < |hs| => HandText(rules, hs[i]));
    forall i | 0 <= i < |hs|
      ensures lines[i] != [] && '\n' !in lines[i] && ParseHand(rules, lines[i]) == Ok(hs[i])
    {
      HandLine(rules, hs[i]);
      HandRoundTrip(rules, hs[i]);
    }
    LinesOfJoin(lines);
    var r := CollectAll(lines, HandParser(rules));
    assert r.Ok? && r.value == hs;
  }

  // ---------------------------------------------------------------------------------------------
  // Hand types

  /** The number of different cards. */
  function DistinctCount(s: seq<nat>): nat {
    if s == [] then 0 else DistinctCount(s[..|s| - 1]) + (if s[|s| - 1] in s[..|s| - 1] then 0 else 1)
  }

  /** The different cards of `s`. */
  function Elements(s: seq<nat>): set<nat> {
    set x | x in s
  }

  lemma {:induction false} DistinctCountIsSetSize(s: seq<nat>)
    ensures DistinctCount(s) == |Elements(s)|
  {
    if s != [] {
      var init, last := s[..|s| - 1], s[|s| - 1];
      DistinctCountIsSetSize(init);
      assert s == init + [last];
      assert Elements(s) == Elements(init) + {last} by {
        forall x ensures x in s <==> x in init || x == last {
        }
      }
      if last !in init {
        assert last !in Elements(init);
      }
    }
  }

  /** The largest number of times any of `xs` occurs in `s`. */
  function MaxOccurrenceAmong(s: seq<nat>, xs: seq<nat>): nat {
    if xs == [] then 0
    else
      var here, rest := Occurrences(s, xs[0]), MaxOccurrenceAmong(s, xs[1..]);
      if here >= rest then here else rest
  }

  /** It is a maximum: no element of `xs` occurs more often, and some element of `xs` occurs that often. */
  lemma {:induction false} MaxOccurrenceAmongIsMax(s: seq<nat>, xs: seq<nat>)
    ensures forall x :: x in xs ==> Occurrences(s, x) <= MaxOccurrenceAmong(s, xs)
    ensures xs != [] ==> exists x :: x in xs && Occurrences(s, x) == MaxOccurrenceAmong(s, xs)
  {
    if xs != [] {
      MaxOccurrenceAmongIsMax(s, xs[1..]);
      assert forall x :: x in xs ==> x == xs[0] || x in xs[1..];
      if Occurrences(s, xs[0]) < MaxOccurrenceAmong(s, xs[1..]) {
        var y :| y in xs[1..] && Occurrences(s, y) == MaxOccurrenceAmong(s, xs[1..]);
        assert y in xs;
      }
    }
  }

  /** The size of the largest group of equal cards. */
  function MaxOccurrence(s: seq<nat>): nat {
    MaxOccurrenceAmong(s, s)
  }

  /** The type of five cards, from the size of the largest group and the number of different cards. */
  function HandTypeOf(largest: nat, distinct: nat): HandType {
    if largest >= 5 then FiveOfAKind
    else if largest == 4 then FourOfAKind
    else if largest == 3 then (if distinct == 2 then FullHouse else ThreeOfAKind)
    else if largest == 2 then (if distinct == 3 then TwoPair else OnePair)
    else HighCard
  }

  /** The type `NormalCard::hand_type` gives. */
  function NormalType(cards: seq<nat>): HandType {
    HandTypeOf(MaxOccurrence(cards), DistinctCount(cards))
  }

  /** The cards other than jokers, in order. */
  function NonJokers(s: seq<nat>): (r: seq<nat>)
    ensures |r| <= |s| && 0 !in r
  {
    if s == [] then [] else NonJokers(s[..|s| - 1]) + (if s[|s| - 1] != 0 then [s[|s| - 1]] else [])
  }

  /** The type `JokerCard::hand_type` gives: the jokers join the largest group of other cards, and
      five jokers make five of a kind. */
  function JokerType(cards: seq<nat>): HandType {
    var others := NonJokers(cards);
    if others == [] then FiveOfAKind
    else HandTypeOf(MaxOccurrence(others) + (|cards| - |others|), DistinctCount(others))
  }

  function TypeOf(rules: Rules, cards: seq<nat>): HandType {
    if rules == Normal then NormalType(cards) else JokerType(cards)
  }

  /** Counts of groups, largest first, that add up to five cards. */
  predicate IsPartitionOfFive(r: seq<int>) {
    NonIncreasing(r) && (forall i :: 0 <= i < |r| ==> r[i] >= 1) && Sum(r) == 5
  }

  lemma {:induction false} SumAtLeastLength(r: seq<int>)
    requires forall i :: 0 <= i < |r| ==> r[i] >= 1
    ensures Sum(r) >= |r|
  {
    if r != [] {
      SumAtLeastLength(r[..|r| - 1]);
    }
  }

  lemma SumFirst(r: seq<int>)
    requires r != []
    ensures Sum(r) == r[0] + Sum(r[1..])
  {
    assert r == [r[0]] + r[1..];
    SumCons(r[0], r[1..]);
  }

  /** The sum of a list of two to five numbers, term by term. */
  lemma SumOfFew(r: seq<int>)
    requires 1 <= |r| <= 5
    ensures |r| == 1 ==> Sum(r) == r[0]
    ensures |r| == 2 ==> Sum(r) == r[0] + r[1]
    ensures |r| == 3 ==> Sum(r) == r[0] + r[1] + r[2]
    ensures |r| == 4 ==> Sum(r) == r[0] + r[1] + r[2] + r[3]
    ensures |r| == 5 ==> Sum(r) == r[0] + r[1] + r[2] + r[3] + r[4]
  {
    var n := |r|;
    assert r[..n - 1][..0] == [];
    if n >= 2 {
      assert r[..n - 1][..n - 2][..0] == [];
    }
    if n >= 3 {
      assert r[..n - 1][..n - 2][..n - 3][..0] == [];
    }
    if n >= 4 {
      assert r[..n - 1][..n - 2][..n - 3][..n - 4][..0] == [];
    }
  }

  /** Five cards fall into groups in exactly seven ways, which the match of `hand_type` lists. */
  lemma PartitionsOfFive(r: seq<int>)
    requires IsPartitionOfFive(r)
    ensures r == [5] || r == [4, 1] || r == [3, 2] || r == [3, 1, 1] || r == [2, 2, 1] || r == [2, 1, 1, 1] || r == [1, 1, 1, 1, 1]
  {
    SumAtLeastLength(r);
    SumOfFew(r);
    if |r| == 1 {
      assert r == [r[0]];
    } else if |r| == 2 {
      PartitionsOfTwo(r);
    } else if |r| == 3 {
      PartitionsOfThree(r);
    } else if |r| == 4 {
      assert r[0] >= r[1];
      assert r == [r[0], r[1], r[2], r[3]];
    } else {
      assert r == [r[0], r[1], r[2], r[3], r[4]];
    }
  }

  lemma PartitionsOfTwo(r: seq<int>)
    requires |r| == 2 && r[0] >= r[1] >= 1 && r[0] + r[1] == 5
    ensures r == [4, 1] || r == [3, 2]
  {
    assert r == [r[0], r[1]];
  }

  lemma PartitionsOfThree(r: seq<int>)
    requires |r| == 3 && r[0] >= r[1] >= r[2] >= 1 && r[0] + r[1] + r[2] == 5
    ensures r == [3, 1, 1] || r == [2, 2, 1]
  {
    assert r == [r[0], r[1], r[2]];
  }

  /** The sorted counts of a counter holding `s` are the group sizes: as many as there are different
      cards, the largest first. */
  lemma SortedCountsOf(c: Counter<nat>, s: seq<nat>, r: seq<nat>)
    requires c.Valid() && c.added == s && s != []
    requires NonIncreasing(r) && multiset(r) == c.Bag() && |r| == |c.counts|
    ensures |r| == DistinctCount(s) && r != [] && r[0] == MaxOccurrence(s)
  {
    assert c.counts.Keys == Elements(s) by {
      forall k | k in c.counts
        ensures k in s
      {
        assert c.counts[k] >= 1 && c.counts[k] == Occurrences(s, k);
      }
      forall x | x in s
        ensures x in c.counts
      {
        var i :| 0 <= i < |s| && s[i] == x;
      }
    }
    DistinctCountIsSetSize(s);
    assert |r| == |c.counts.Keys|;
    assert s[0] in c.counts;
    var m := MaxOccurrence(s);
    MaxOccurrenceAmongIsMax(s, s);
    CountsInBag(c, r[0]);
    assert r[0] in multiset(r);
    var k :| k in c.counts && c.counts[k] == r[0];
    assert Occurrences(s, k) == r[0] && k in s;
    var x :| x in s && Occurrences(s, x) == m;
    assert x in c.counts;
    CountsInBag(c, m);
    assert m in multiset(r);
    var j :| 0 <= j < |r| && r[j] == m;
    assert r[0] >= r[j];
  }

  /** `NormalCard::hand_type`: count the cards, sort the counts largest first, match the pattern.
      `PartitionsOfFive` shows that the panicking arm of the match is never reached. */
  method NormalHandType(cards: seq<nat>) returns (t: HandType)
    requires |cards| == 5
    ensures t == NormalType(cards)
  {
    var counter := Counter.From(cards);
    var counts := counter.SortedCounts();
    SortedCountsOf(counter, cards, counts);
    assert IsPartitionOfFive(counts);
    t := MatchCounts(counts);
  }

  /** The match of `NormalCard::hand_type` on the sorted counts. */
  method MatchCounts(counts: seq<nat>) returns (t: HandType)
    requires IsPartitionOfFive(counts)
    ensures t == HandTypeOf(counts[0], |counts|)
  {
    if counts == [5] {
      t := FiveOfAKind;
    } else if counts == [4, 1] {
      t := FourOfAKind;
    } else if counts == [3, 2] {
      t := FullHouse;
    } else if counts == [3, 1, 1] {
      t := ThreeOfAKind;
    } else if counts == [2, 2, 1] {
      t := TwoPair;
    } else if counts == [2, 1, 1, 1] {
      t := OnePair;
    } else {
      PartitionsOfFive(counts);
      assert counts == [1, 1, 1, 1, 1];
      t := HighCard;
    }
  }

  /** Adding the jokers to the largest count keeps the counts a partition of the five cards. */
  lemma BumpFirst(r: seq<nat>, d: nat)
    requires r != [] && NonIncreasing(r) && (forall i :: 0 <= i < |r| ==> r[i] >= 1) && Sum(r) + d == 5
    ensures IsPartitionOfFive(r[0 := r[0] + d])
  {
    var r' := r[0 := r[0] + d];
    SumFirst(r);
    SumFirst(r');
    assert r'[1..] == r[1..];
  }

  lemma NonJokersSnoc(s: seq<nat>, x: nat)
    ensures NonJokers(s + [x]) == NonJokers(s) + (if x != 0 then [x] else [])
  {
    assert (s + [x])[..|s|] == s;
  }

  /** The cards up to `i + 1` keep one more card than those up to `i` unless it is a joker. */
  lemma NonJokersStep(cards: seq<nat>, i: nat)
    requires i < |cards|
    ensures NonJokers(cards[..i + 1]) == NonJokers(cards[..i]) + (if cards[i] != 0 then [cards[i]] else [])
  {
    assert cards[..i + 1] == cards[..i] + [cards[i]];
    NonJokersSnoc(cards[..i], cards[i]);
  }

  /** The loop of `JokerCard::hand_type`: count the cards other than jokers, and the jokers. */
  method CountOthers(cards: seq<nat>) returns (counter: Counter<nat>, jokers: nat)
    ensures fresh(counter) && counter.Valid() && counter.added == NonJokers(cards)
    ensures jokers == |cards| - |NonJokers(cards)|
  {
    counter := new Counter<nat>();
    jokers := 0;
    for i := 0 to |cards|
      invariant counter.Valid() && counter.added == NonJokers(cards[..i])
      invariant jokers + |NonJokers(cards[..i])| == i
    {
      NonJokersStep(cards, i);
      if cards[i] == 0 {
        jokers := jokers + 1;
      } else {
        counter.Add(cards[i]);
      }
    }
    assert cards[..|cards|] == cards;
  }

  lemma JokerTypeOfCounts(cards: seq<nat>, others: seq<nat>, jokers: nat, counts: seq<nat>)
    requires others == NonJokers(cards) && others != [] && jokers == |cards| - |others|
    requires |counts| == DistinctCount(others) && counts != [] && counts[0] == MaxOccurrence(others)
    ensures JokerType(cards) == HandTypeOf(counts[0] + jokers, |counts|)
  {
  }

  /** A counter holds no keys exactly when nothing was added. */
  lemma CounterEmpty(c: Counter<nat>)
    requires c.Valid()
    ensures c.counts == map[] <==> c.added == []
  {
    if c.added != [] {
      assert c.added[0] in c.counts;
    }
    if c.counts != map[] {
      var k :| k in c.counts;
      assert Occurrences(c.added, k) >= 1;
    }
  }

  /** After the jokers join the largest count, the counts are still a partition of five and give
      the type of the hand. */
  lemma JokersJoinLargest(c: Counter<nat>, cards: seq<nat>, jokers: nat, counts: seq<nat>)
    requires |cards| == 5 && c.Valid() && c.added == NonJokers(cards) && jokers == |cards| - |c.added|
    requires NonIncreasing(counts) && multiset(counts) == c.Bag() && |counts| == |c.counts|
    requires Sum(counts) == |c.added| && forall i :: 0 <= i < |counts| ==> counts[i] >= 1
    requires counts != []
    ensures IsPartitionOfFive(counts[0 := counts[0] + jokers])
    ensures JokerType(cards) == HandTypeOf(counts[0] + jokers, |counts|)
  {
    CounterEmpty(c);
    SortedCountsOf(c, c.added, counts);
    JokerTypeOfCounts(cards, c.added, jokers, counts);
    BumpFirst(counts, jokers);
  }

  /** The first half of `JokerCard::hand_type`: the counts of the other cards, largest first, and
      the number of jokers, which join the largest count. */
  method JokerCounts(cards: seq<nat>) returns (counts: seq<nat>, jokers: nat)
    requires |cards| == 5
    ensures counts == [] ==> JokerType(cards) == FiveOfAKind
    ensures counts != [] ==> IsPartitionOfFive(counts[0 := counts[0] + jokers])
    ensures counts != [] ==> JokerType(cards) == HandTypeOf(counts[0] + jokers, |counts|)
  {
    var counter;
    counter, jokers := CountOthers(cards);
    counts := counter.SortedCounts();
    if |counts| == 0 {
      CounterEmpty(counter);
    } else {
      JokersJoinLargest(counter, cards, jokers, counts);
    }
  }

  /** `JokerCard::hand_type`: the jokers join the largest count of the other cards. */
  method JokerHandType(cards: seq<nat>) returns (t: HandType)
    requires |cards| == 5
    ensures t == JokerType(cards)
  {
    var counts, jokers := JokerCounts(cards);
    if |counts| == 0 {
      return FiveOfAKind;
    }
    counts := counts[0 := counts[0] + jokers];
    t := JokerChain(counts);
  }

  /** The `if` chain of `JokerCard::hand_type` on the adjusted counts. `counts[1]` is only read
      where there are two counts, and the panicking branch is never reached. */
  method JokerChain(counts: seq<nat>) returns (t: HandType)
    requires IsPartitionOfFive(counts)
    ensures t == HandTypeOf(counts[0], |counts|)
  {
    PartitionsOfFive(counts);
    if |counts| == 0 || counts[0] >= 5 {
      t := FiveOfAKind;
    } else if counts[0] == 4 {
      t := FourOfAKind;
    } else if counts[0] == 3 && counts[1] >= 2 {
      t := FullHouse;
    } else if counts[0] == 3 && counts[1] == 1 {
      t := ThreeOfAKind;
    } else if counts[0] == 2 && counts[1] >= 2 {
      t := TwoPair;
    } else if counts[0] == 2 && counts[1] == 1 {
      t := OnePair;
    } else {
      assert counts[0] == 1;
      t := HighCard;
    }
  }

  method HandTypeFor(rules: Rules, cards: seq<nat>) returns (t: HandType)
    requires |cards| == 5
    ensures t == TypeOf(rules, cards)
  {
    if rules == Normal {
      t := NormalHandType(cards);
    } else {
      t := JokerHandType(cards);
    }
  }

  // ---------------------------------------------------------------------------------------------
  // Ordering and winnings

  /** The panic of `partial_cmp` on two hands with the same cards. */
  const EQUAL_HANDS: string := "panic: Hands should never be equal"

  /** The position a hand sorts by: its type first, then its cards from the left. */
  function HandKey(rules: Rules, h: Hand): seq<int> {
    [TypeRank(TypeOf(rules, h.cards))] + h.cards
  }

  function HandKeyOf(rules: Rules): Hand -> seq<int> {
    h => HandKey(rules, h)
  }

  /** The loop of `partial_cmp` from card `i` on: the first differing card decides. */
  function CompareCards(a: seq<nat>, b: seq<nat>, i: nat): (r: Result<Ordering>)
    requires |a| == 5 && |b| == 5 && i <= 5
    ensures r.Err? ==> r == Err(EQUAL_HANDS) && a[i..] == b[i..]
    ensures r.Ok? ==> exists j :: i <= j < 5 && a[i..j] == b[i..j] && a[j] != b[j] && (r.value == Ordering.Less <==> a[j] < b[j])
    ensures r.Ok? ==> r.value != Ordering.Equal
    decreases 5 - i
  {
    if i == 5 then Err(EQUAL_HANDS)
    else if a[i] != b[i] then Ok(if a[i] < b[i] then Ordering.Less else Ordering.Greater)
    else
      var r := CompareCards(a, b, i + 1);
      assert a[i..] == [a[i]] + a[i + 1..] && b[i..] == [b[i]] + b[i + 1..];
      assert forall j :: i < j <= 5 ==> a[i..j] == [a[i]] + a[i + 1..j] && b[i..j] == [b[i]] + b[i + 1..j];
      r
  }

  /** `Hand::cmp`: `partial_cmp` by type, then card by card, unwrapped. */
  function CompareHands(rules: Rules, a: Hand, b: Hand): (r: Result<Ordering>)
    requires |a.cards| == 5 && |b.cards| == 5
    ensures r.Err? ==> r == Err(EQUAL_HANDS) && a.cards == b.cards
    ensures r.Ok? ==> r.value != Ordering.Equal
  {
    var ta, tb := TypeRank(TypeOf(rules, a.cards)), TypeRank(TypeOf(rules, b.cards));
    if ta != tb then Ok(if ta < tb then Ordering.Less else Ordering.Greater)
    else CompareCards(a.cards, b.cards, 0)
  }

  /** Comparing cards from `i` on is the lexicographic order of what is left, and fails exactly
      when nothing differs. */
  lemma {:induction false} CompareCardsLex(a: seq<nat>, b: seq<nat>, i: nat)
    requires |a| == 5 && |b| == 5 && i <= 5
    ensures CompareCards(a, b, i).Err? <==> a[i..] == b[i..]
    ensures CompareCards(a, b, i) == Ok(Ordering.Less) <==> a[i..] != b[i..] && LexLe(a[i..], b[i..])
    ensures CompareCards(a, b, i) == Ok(Ordering.Greater) <==> a[i..] != b[i..] && LexLe(b[i..], a[i..])
    decreases 5 - i
  {
    if i < 5 {
      CompareCardsLex(a, b, i + 1);
      assert a[i..] == [a[i]] + a[i + 1..] && b[i..] == [b[i]] + b[i + 1..];
      assert a[i..][1..] == a[i + 1..] && b[i..][1..] == b[i + 1..];
      if a[i] == b[i] {
        assert a[i..] == b[i..] <==> a[i + 1..] == b[i + 1..];
      }
    }
  }

  /** `Hand::cmp` is the order of the sort keys: it panics exactly on hands with the same cards,
      and otherwise says `Less` exactly when the first key comes first. */
  lemma CompareHandsByKey(rules: Rules, a: Hand, b: Hand)
    requires |a.cards| == 5 && |b.cards| == 5
    ensures CompareHands(rules, a, b).Err? <==> a.cards == b.cards
    ensures CompareHands(rules, a, b) == Ok(Ordering.Less) <==>
      a.cards != b.cards && LexLe(HandKey(rules, a), HandKey(rules, b))
    ensures CompareHands(rules, a, b) == Ok(Ordering.Greater) <==>
      a.cards != b.cards && LexLe(HandKey(rules, b), HandKey(rules, a))
  {
    CompareCardsLex(a.cards, b.cards, 0);
    var ka, kb := HandKey(rules, a), HandKey(rules, b);
    assert ka[1..] == a.cards && kb[1..] == b.cards;
    assert a.cards[0..] == a.cards && b.cards[0..] == b.cards;
  }

  /** Some two hands hold the same cards. */
  predicate HasEqualHands(hs: seq<Hand>) {
    exists i, j :: 0 <= i < j < |hs| && hs[i].cards == hs[j].cards
  }

  /** Each bid times the rank of its hand, the first hand ranking 1. */
  function Winnings(hs: seq<Hand>): nat {
    if hs == [] then 0 else Winnings(hs[..|hs| - 1]) + hs[|hs| - 1].bid * |hs|
  }

  /** An element at two positions occurs at least twice. */
  lemma TwoPositions<T>(s: seq<T>, i: nat, j: nat)
    requires i < j < |s| && s[i] == s[j]
    ensures multiset(s)[s[i]] >= 2
  {
    assert s == s[..i] + [s[i]] + s[i + 1..j] + [s[j]] + s[j + 1..];
  }

  /** An element occurring twice occurs somewhere else too. */
  lemma MultisetTwice<T>(s: seq<T>, p: nat)
    requires p < |s| && multiset(s)[s[p]] >= 2
    ensures exists q :: 0 <= q < |s| && q != p && s[q] == s[p]
  {
    var rest := s[..p] + s[p + 1..];
    assert s == s[..p] + [s[p]] + s[p + 1..];
    assert multiset(rest)[s[p]] >= 1;
    assert s[p] in rest;
    var k :| 0 <= k < |rest| && rest[k] == s[p];
    if k < p {
      assert s[k] == s[p];
    } else {
      assert s[k + 1] == s[p];
    }
  }

  /** Rearranging the hands does not make two of them equal. */
  lemma EqualHandsPermuted(hs: seq<Hand>, t: seq<Hand>)
    requires multiset(t) == multiset(hs)
    ensures HasEqualHands(t) ==> HasEqualHands(hs)
  {
    if HasEqualHands(t) {
      var i, j :| 0 <= i < j < |t| && t[i].cards == t[j].cards;
      assert t[i] in multiset(hs) && t[j] in multiset(hs);
      var p :| 0 <= p < |hs| && hs[p] == t[i];
      var q :| 0 <= q < |hs| && hs[q] == t[j];
      if t[i] == t[j] {
        TwoPositions(t, i, j);
        MultisetTwice(hs, p);
        q :| 0 <= q < |hs| && q != p && hs[q] == hs[p];
      }
      if p < q {
        assert hs[p].cards == hs[q].cards;
      } else {
        assert hs[q].cards == hs[p].cards;
      }
    }
  }

  /** Without two hands with the same cards, no two hands share a key. */
  lemma KeysDiffer(rules: Rules, t: seq<Hand>)
    requires !HasEqualHands(t)
    ensures KeyInjective(t, HandKeyOf(rules))
  {
    forall i, j | 0 <= i < |t| && 0 <= j < |t| && HandKey(rules, t[i]) == HandKey(rules, t[j])
      ensures t[i] == t[j]
    {
      assert t[i].cards == HandKey(rules, t[i])[1..] && t[j].cards == HandKey(rules, t[j])[1..];
      assert i == j;
    }
  }

  /** `HandList::total_winnings`: sort the hands, then add up each bid times its rank. A sort by
      comparison must compare two hands with the same cards, if there are any, since they end up
      next to each other; that comparison panics. */
  method TotalWinnings(rules: Rules, hs: seq<Hand>) returns (r: Result<nat>)
    requires forall i :: 0 <= i < |hs| ==> |hs[i].cards| == 5
    ensures r.Err? <==> HasEqualHands(hs)
    ensures r.Err? ==> r.msg == EQUAL_HANDS
    ensures r.Ok? ==> r.value == Winnings(SortByKey(hs, HandKeyOf(rules)))
  {
    if HasEqualHands(hs) {
      return Err(EQUAL_HANDS);
    }
    var a := new Hand[|hs|](i requires 0 <= i < |hs| => hs[i]);
    assert a[..] == hs;
    SortInPlace(a, HandKeyOf(rules));
    SortedIsSortByKey(rules, hs, a[..]);
    var res := SumWinnings(a);
    r := Ok(res);
  }

  /** A sorted arrangement of hands with distinct cards is the one `SortByKey` gives. */
  lemma SortedIsSortByKey(rules: Rules, hs: seq<Hand>, t: seq<Hand>)
    requires !HasEqualHands(hs) && multiset(t) == multiset(hs) && SortedBy(t, HandKeyOf(rules))
    ensures t == SortByKey(hs, HandKeyOf(rules))
  {
    EqualHandsPermuted(hs, t);
    KeysDiffer(rules, t);
    SortedUnique(t, SortByKey(hs, HandKeyOf(rules)), HandKeyOf(rules));
  }

  /** The loop of `total_winnings`: each bid times its rank, one past its index. */
  method SumWinnings(a: array<Hand>) returns (res: nat)
    ensures res == Winnings(a[..])
  {
    res := 0;
    for i := 0 to a.Length
      invariant res == Winnings(a[..i])
    {
      assert a[..i + 1][..i] == a[..i];
      res := res + a[i].bid * (i + 1);
    }
    assert a[..a.Length] == a[..];
  }

  /** In the sorted hands, every hand compares below every later one. */
  lemma SortedHandsAscend(rules: Rules, hs: seq<Hand>, i: nat, j: nat)
    requires forall k :: 0 <= k < |hs| ==> |hs[k].cards| == 5
    requires !HasEqualHands(hs)
    requires i < j < |hs|
    ensures var s := SortByKey(hs, HandKeyOf(rules));
      |s[i].cards| == 5 && |s[j].cards| == 5 && CompareHands(rules, s[i], s[j]) == Ok(Ordering.Less)
  {
    var s := SortByKey(hs, HandKeyOf(rules));
    assert s[i] in multiset(hs) && s[j] in multiset(hs);
    EqualHandsPermuted(hs, s);
    assert s[i].cards != s[j].cards;
    assert LexLe(HandKey(rules, s[i]), HandKey(rules, s[j]));
    CompareHandsByKey(rules, s[i], s[j]);
  }

  /** `day07_1` and `day07_2`: the total winnings of the hands under either rule. */
  method Part(rules: Rules, input: string) returns (r: Result<nat>)
    ensures ParseHandList(rules, input).Err? ==> r == Err(ParseHandList(rules, input).msg)
    ensures ParseHandList(rules, input).Ok? ==> var hs := ParseHandList(rules, input).value;
      (r.Err? <==> HasEqualHands(hs)) &&
      (r.Ok? ==> r.value == Winnings(SortByKey(hs, HandKeyOf(rules))))
  {
    var parsed := ParseHandList(rules, input);
    if parsed.Err? {
      return Err(parsed.msg);
    }
    r := TotalWinnings(rules, parsed.value);
  }

  // ---------------------------------------------------------------------------------------------
  // The unit tests

  /** The largest group has `m` cards when `x` occurs `m` times and nothing occurs more often. */
  lemma MaxOccurrenceIs(s: seq<nat>, x: nat, m: nat)
    requires x in s && Occurrences(s, x) == m
    requires forall y :: y in s ==> Occurrences(s, y) <= m
    ensures MaxOccurrence(s) == m
  {
    MaxOccurrenceAmongIsMax(s, s);
  }

  /** A hand without jokers has the same type under both rules. */
  lemma {:induction false} NonJokersOfNoJokers(s: seq<nat>)
    requires 0 !in s
    ensures NonJokers(s) == s
  {
    if s != [] {
      NonJokersOfNoJokers(s[..|s| - 1]);
    }
  }

  lemma JokerTypeWithoutJokers(cards: seq<nat>)
    requires cards != [] && 0 !in cards
    ensures JokerType(cards) == NormalType(cards)
  {
    NonJokersOfNoJokers(cards);
  }

  function Indicator(b: bool): nat {
    if b then 1 else 0
  }

  /** How often `y` is among five cards. */
  function CountOfFive(a: nat, b: nat, c: nat, d: nat, e: nat, y: nat): nat {
    Indicator(a == y) + Indicator(b == y) + Indicator(c == y) + Indicator(d == y) + Indicator(e == y)
  }

  /** How often a card occurs in a hand, card by card. */
  lemma OccurrencesOfFive(a: nat, b: nat, c: nat, d: nat, e: nat, y: nat)
    ensures Occurrences([a, b, c, d, e], y) == CountOfFive(a, b, c, d, e, y)
  {
    assert [a, b, c, d, e][..4] == [a, b, c, d];
    assert Occurrences([a, b, c, d, e], y) == Occurrences([a, b, c, d], y) + Indicator(e == y);
    assert [a, b, c, d][..3] == [a, b, c];
    assert Occurrences([a, b, c, d], y) == Occurrences([a, b, c], y) + Indicator(d == y);
    assert [a, b, c][..2] == [a, b];
    assert Occurrences([a, b, c], y) == Occurrences([a, b], y) + Indicator(c == y);
    assert [a, b][..1] == [a];
  }

  /** The different cards of a hand. */
  lemma ElementsOfFive(a: nat, b: nat, c: nat, d: nat, e: nat)
    ensures Elements([a, b, c, d, e]) == {a, b, c, d, e}
  {
  }

  /** The type of a hand from its largest group, the card that forms it and its different cards. */
  lemma NormalTypeOfFive(a: nat, b: nat, c: nat, d: nat, e: nat, x: nat, m: nat, k: nat)
    requires x == a || x == b || x == c || x == d || x == e
    requires CountOfFive(a, b, c, d, e, x) == m
    requires CountOfFive(a, b, c, d, e, a) <= m && CountOfFive(a, b, c, d, e, b) <= m
    requires CountOfFive(a, b, c, d, e, c) <= m && CountOfFive(a, b, c, d, e, d) <= m
    requires CountOfFive(a, b, c, d, e, e) <= m
    requires |{a, b, c, d, e}| == k
    ensures NormalType([a, b, c, d, e]) == HandTypeOf(m, k)
  {
    var s := [a, b, c, d, e];
    ElementsOfFive(a, b, c, d, e);
    forall y | y in s
      ensures Occurrences(s, y) <= m
    {
      assert y == a || y == b || y == c || y == d || y == e;
      OccurrencesOfFive(a, b, c, d, e, y);
    }
    OccurrencesOfFive(a, b, c, d, e, x);
    MaxOccurrenceIs(s, x, m);
    DistinctCountIsSetSize(s);
  }

  lemma TypeOfFirst(cards: seq<nat>)
    requires cards == [3, 2, 10, 3, 13]
    ensures NormalType(cards) == OnePair
  {
    assert {3, 2, 10, 3, 13} == {2, 3, 10, 13};
    NormalTypeOfFive(3, 2, 10, 3, 13, 3, 2, 4);
  }

  lemma TypeOfSecond(cards: seq<nat>)
    requires cards == [10, 5, 5, 11, 5]
    ensures NormalType(cards) == ThreeOfAKind
  {
    assert {10, 5, 5, 11, 5} == {5, 10, 11};
    NormalTypeOfFive(10, 5, 5, 11, 5, 5, 3, 3);
  }

  lemma TypeOfThird(cards: seq<nat>)
    requires cards == [13, 13, 6, 7, 7]
    ensures NormalType(cards) == TwoPair
  {
    assert {13, 13, 6, 7, 7} == {6, 7, 13};
    NormalTypeOfFive(13, 13, 6, 7, 7, 13, 2, 3);
  }

  lemma TypeOfFourth(cards: seq<nat>)
    requires cards == [13, 10, 11, 11, 10]
    ensures NormalType(cards) == TwoPair
  {
    assert {13, 10, 11, 11, 10} == {10, 11, 13};
    NormalTypeOfFive(13, 10, 11, 11, 10, 10, 2, 3);
  }

  lemma TypeOfFifth(cards: seq<nat>)
    requires cards == [12, 12, 12, 11, 14]
    ensures NormalType(cards) == ThreeOfAKind
  {
    assert {12, 12, 12, 11, 14} == {11, 12, 14};
    NormalTypeOfFive(12, 12, 12, 11, 14, 12, 3, 3);
  }

  /** A group of `m` other cards of `x`, at least as many as all the other cards besides it, with
      jokers filling up to four of a kind. */
  lemma JokerFourOfAKind(cards: seq<nat>, others: seq<nat>, x: nat, m: nat)
    requires NonJokers(cards) == others && Occurrences(others, x) == m && m >= 1 && |others| <= 2 * m
    requires m + (|cards| - |others|) == 4
    ensures JokerType(cards) == FourOfAKind
  {
    forall y | y in others
      ensures Occurrences(others, y) <= m
    {
      if y != x {
        OccurrencesOfTwo(others, x, y);
      }
    }
    MaxOccurrenceIs(others, x, m);
  }

  lemma OthersOfSecond()
    ensures NonJokers([10, 5, 5, 0, 5]) == [10, 5, 5, 5]
  {
    NonJokersSnoc([10, 5, 5, 0], 5);
    NonJokersSnoc([10, 5, 5], 0);
    NonJokersOfNoJokers([10, 5, 5]);
    assert [10, 5, 5, 0] + [5] == [10, 5, 5, 0, 5] && [10, 5, 5] + [0] == [10, 5, 5, 0];
  }

  lemma JokerTypeOfSecond(cards: seq<nat>, others: seq<nat>)
    requires cards == [10, 5, 5, 0, 5] && others == [10, 5, 5, 5]
    ensures JokerType(cards) == FourOfAKind
  {
    OthersOfSecond();
    OccurrencesSnoc([10, 5, 5], 5, 5);
    OccurrencesSnoc([10, 5], 5, 5);
    assert others == [10, 5, 5] + [5] && [10, 5, 5] == [10, 5] + [5];
    JokerFourOfAKind(cards, others, 5, 3);
  }

  lemma OthersOfFourth()
    ensures NonJokers([13, 10, 0, 0, 10]) == [13, 10, 10]
  {
    NonJokersSnoc([13, 10, 0, 0], 10);
    NonJokersSnoc([13, 10, 0], 0);
    NonJokersSnoc([13, 10], 0);
    NonJokersOfNoJokers([13, 10]);
    assert [13, 10, 0, 0] + [10] == [13, 10, 0, 0, 10] && [13, 10, 0] + [0] == [13, 10, 0, 0] && [13, 10] + [0] == [13, 10, 0];
  }

  lemma JokerTypeOfFourth(cards: seq<nat>, others: seq<nat>)
    requires cards == [13, 10, 0, 0, 10] && others == [13, 10, 10]
    ensures JokerType(cards) == FourOfAKind
  {
    OthersOfFourth();
    assert Occurrences(others, 10) == 2;
    JokerFourOfAKind(cards, others, 10, 2);
  }

  lemma OthersOfFifth()
    ensures NonJokers([12, 12, 12, 0, 14]) == [12, 12, 12, 14]
  {
    NonJokersSnoc([12, 12, 12, 0], 14);
    NonJokersSnoc([12, 12, 12], 0);
    NonJokersOfNoJokers([12, 12, 12]);
    assert [12, 12, 12, 0] + [14] == [12, 12, 12, 0, 14] && [12, 12, 12] + [0] == [12, 12, 12, 0];
  }

  lemma JokerTypeOfFifth(cards: seq<nat>, others: seq<nat>)
    requires cards == [12, 12, 12, 0, 14] && others == [12, 12, 12, 14]
    ensures JokerType(cards) == FourOfAKind
  {
    OthersOfFifth();
    OccurrencesSnoc([12, 12, 12], 14, 12);
    OccurrencesSnoc([12, 12], 12, 12);
    assert others == [12, 12, 12] + [14] && [12, 12, 12] == [12, 12] + [12];
    JokerFourOfAKind(cards, others, 12, 3);
  }

  lemma WinningsOfFive(h0: Hand, h1: Hand, h2: Hand, h3: Hand, h4: Hand)
    ensures Winnings([h0, h1, h2, h3, h4]) == h0.bid + h1.bid * 2 + h2.bid * 3 + h3.bid * 4 + h4.bid * 5
  {
    var t := [h0, h1, h2, h3, h4];
    assert t[..4] == [h0, h1, h2, h3];
    assert [h0, h1, h2, h3][..3] == [h0, h1, h2];
    assert [h0, h1, h2][..2] == [h0, h1];
    assert [h0, h1][..1] == [h0];
    assert [h0][..0] == [];
    assert Winnings([h0]) == h0.bid;
    assert Winnings([h0, h1]) == h0.bid + h1.bid * 2;
    assert Winnings([h0, h1, h2]) == h0.bid + h1.bid * 2 + h2.bid * 3;
    assert Winnings([h0, h1, h2, h3]) == h0.bid + h1.bid * 2 + h2.bid * 3 + h3.bid * 4;
  }

  /** Five elements whose keys ascend from each to the next. */
  lemma AscendingFive<T>(t: seq<T>, key: T -> seq<int>)
    requires |t| == 5 && LexLe(key(t[0]), key(t[1])) && LexLe(key(t[1]), key(t[2]))
    requires LexLe(key(t[2]), key(t[3])) && LexLe(key(t[3]), key(t[4]))
    ensures forall i :: 0 <= i < |t| - 1 ==> LexLe(key(t[i]), key(t[i + 1]))
  {
    forall i | 0 <= i < |t| - 1
      ensures LexLe(key(t[i]), key(t[i + 1]))
    {
      assert i == 0 || i == 1 || i == 2 || i == 3;
    }
  }

  /** A hand of a weaker type sorts first. */
  lemma KeyLeByType(rules: Rules, a: Hand, b: Hand)
    requires TypeRank(TypeOf(rules, a.cards)) < TypeRank(TypeOf(rules, b.cards))
    ensures LexLe(HandKey(rules, a), HandKey(rules, b))
  {
  }

  /** Between hands of the same type, the first differing card decides. */
  lemma KeyLeByCard(rules: Rules, a: Hand, b: Hand, n: nat)
    requires TypeRank(TypeOf(rules, a.cards)) == TypeRank(TypeOf(rules, b.cards))
    requires n < |a.cards| && n < |b.cards| && a.cards[..n] == b.cards[..n] && a.cards[n] < b.cards[n]
    ensures LexLe(HandKey(rules, a), HandKey(rules, b))
  {
    var ka, kb := HandKey(rules, a), HandKey(rules, b);
    assert ka[..n + 1] == [ka[0]] + a.cards[..n] && kb[..n + 1] == [kb[0]] + b.cards[..n];
    LexLeAtFirstDifference(ka, kb, n + 1);
  }

  /** The cards of `h` are `c0` to `c4`. */
  predicate CardsAre(h: Hand, c0: nat, c1: nat, c2: nat, c3: nat, c4: nat) {
    |h.cards| == 5 && h.cards[0] == c0 && h.cards[1] == c1 && h.cards[2] == c2 && h.cards[3] == c3 && h.cards[4] == c4
  }

  // Under the first rules the sample ranks 32T3K, KTJJT, KK677, T55J5, QQQJA.

  lemma Order1First(a: Hand, b: Hand)
    requires CardsAre(a, 3, 2, 10, 3, 13) && CardsAre(b, 13, 10, 11, 11, 10)
    ensures LexLe(HandKey(Normal, a), HandKey(Normal, b))
  {
    TypeOfFirst(a.cards);
    TypeOfFourth(b.cards);
    KeyLeByType(Normal, a, b);
  }

  lemma Order1Second(a: Hand, b: Hand)
    requires CardsAre(a, 13, 10, 11, 11, 10) && CardsAre(b, 13, 13, 6, 7, 7)
    ensures LexLe(HandKey(Normal, a), HandKey(Normal, b))
  {
    TypeOfFourth(a.cards);
    TypeOfThird(b.cards);
    KeyLeByCard(Normal, a, b, 1);
  }

  lemma Order1Third(a: Hand, b: Hand)
    requires CardsAre(a, 13, 13, 6, 7, 7) && CardsAre(b, 10, 5, 5, 11, 5)
    ensures LexLe(HandKey(Normal, a), HandKey(Normal, b))
  {
    TypeOfThird(a.cards);
    TypeOfSecond(b.cards);
    KeyLeByType(Normal, a, b);
  }

  lemma Order1Fourth(a: Hand, b: Hand)
    requires CardsAre(a, 10, 5, 5, 11, 5) && CardsAre(b, 12, 12, 12, 11, 14)
    ensures LexLe(HandKey(Normal, a), HandKey(Normal, b))
  {
    TypeOfSecond(a.cards);
    TypeOfFifth(b.cards);
    KeyLeByCard(Normal, a, b, 0);
  }

  // With jokers the sample ranks 32T3K, KK677, T55J5, QQQJA, KTJJT.

  lemma JokerTypeOfFirst(cards: seq<nat>)
    requires cards == [3, 2, 10, 3, 13]
    ensures JokerType(cards) == OnePair
  {
    TypeOfFirst(cards);
    JokerTypeWithoutJokers(cards);
  }

  lemma JokerTypeOfThird(cards: seq<nat>)
    requires cards == [13, 13, 6, 7, 7]
    ensures JokerType(cards) == TwoPair
  {
    TypeOfThird(cards);
    JokerTypeWithoutJokers(cards);
  }

  lemma Order2First(a: Hand, b: Hand)
    requires CardsAre(a, 3, 2, 10, 3, 13) && CardsAre(b, 13, 13, 6, 7, 7)
    ensures LexLe(HandKey(Joker, a), HandKey(Joker, b))
  {
    JokerTypeOfFirst(a.cards);
    JokerTypeOfThird(b.cards);
    KeyLeByType(Joker, a, b);
  }

  lemma Order2Second(a: Hand, b: Hand)
    requires CardsAre(a, 13, 13, 6, 7, 7) && CardsAre(b, 10, 5, 5, 0, 5)
    ensures LexLe(HandKey(Joker, a), HandKey(Joker, b))
  {
    JokerTypeOfThird(a.cards);
    JokerTypeOfSecond(b.cards, [10, 5, 5, 5]);
    KeyLeByType(Joker, a, b);
  }

  lemma Order2Third(a: Hand, b: Hand)
    requires CardsAre(a, 10, 5, 5, 0, 5) && CardsAre(b, 12, 12, 12, 0, 14)
    ensures LexLe(HandKey(Joker, a), HandKey(Joker, b))
  {
    JokerTypeOfSecond(a.cards, [10, 5, 5, 5]);
    JokerTypeOfFifth(b.cards, [12, 12, 12, 14]);
    KeyLeByCard(Joker, a, b, 0);
  }

  lemma Order2Fourth(a: Hand, b: Hand)
    requires CardsAre(a, 12, 12, 12, 0, 14) && CardsAre(b, 13, 10, 0, 0, 10)
    ensures LexLe(HandKey(Joker, a), HandKey(Joker, b))
  {
    JokerTypeOfFifth(a.cards, [12, 12, 12, 14]);
    JokerTypeOfFourth(b.cards, [13, 10, 10]);
    KeyLeByCard(Joker, a, b, 0);
  }

  /** Five hands that differ in their first two cards, pair by pair, hold no two equal hands. */
  lemma NoEqualSample(hs: seq<Hand>)
    requires |hs| == 5 && forall i :: 0 <= i < 5 ==> |hs[i].cards| >= 2
    requires forall i, j :: 0 <= i < j < 5 ==> hs[i].cards[0] != hs[j].cards[0] || hs[i].cards[1] != hs[j].cards[1]
    ensures !HasEqualHands(hs)
  {
    forall i, j | 0 <= i < j < 5
      ensures hs[i].cards != hs[j].cards
    {
      assert hs[i].cards[0] != hs[j].cards[0] || hs[i].cards[1] != hs[j].cards[1];
    }
  }

  /** Each hand of the arrangement has a key at most the next one's. */
  lemma Ascending1(h0: Hand, h1: Hand, h2: Hand, h3: Hand, h4: Hand)
    requires CardsAre(h0, 3, 2, 10, 3, 13) && CardsAre(h1, 10, 5, 5, 11, 5) && CardsAre(h2, 13, 13, 6, 7, 7)
    requires CardsAre(h3, 13, 10, 11, 11, 10) && CardsAre(h4, 12, 12, 12, 11, 14)
    ensures LexLe(HandKeyOf(Normal)(h0), HandKeyOf(Normal)(h3)) && LexLe(HandKeyOf(Normal)(h3), HandKeyOf(Normal)(h2))
    ensures LexLe(HandKeyOf(Normal)(h2), HandKeyOf(Normal)(h1)) && LexLe(HandKeyOf(Normal)(h1), HandKeyOf(Normal)(h4))
  {
    Order1First(h0, h3);
    Order1Second(h3, h2);
    Order1Third(h2, h1);
    Order1Fourth(h1, h4);
  }

  lemma DistinctSample1(h0: Hand, h1: Hand, h2: Hand, h3: Hand, h4: Hand)
    requires CardsAre(h0, 3, 2, 10, 3, 13) && CardsAre(h1, 10, 5, 5, 11, 5) && CardsAre(h2, 13, 13, 6, 7, 7)
    requires CardsAre(h3, 13, 10, 11, 11, 10) && CardsAre(h4, 12, 12, 12, 11, 14)
    ensures !HasEqualHands([h0, h1, h2, h3, h4]) && !HasEqualHands([h0, h3, h2, h1, h4])
  {
    NoEqualSample([h0, h1, h2, h3, h4]);
    NoEqualSample([h0, h3, h2, h1, h4]);
  }

  /** Exchanging the second and fourth of five elements keeps the elements. */
  lemma Permuted1<T>(s: seq<T>, t: seq<T>)
    requires |s| == 5 && |t| == 5 && t[0] == s[0] && t[1] == s[3] && t[2] == s[2] && t[3] == s[1] && t[4] == s[4]
    ensures multiset(s) == multiset(t)
  {
    var u := s[1 := s[2]][2 := s[1]];
    var v := u[2 := u[3]][3 := u[2]];
    SwapNeighbours(s, u, 1);
    SwapNeighbours(u, v, 2);
    SwapNeighbours(v, t, 1);
  }



  /** The sample hands under the first rules sort as 32T3K, KTJJT, KK677, T55J5, QQQJA. */
  lemma SortedSample1(h0: Hand, h1: Hand, h2: Hand, h3: Hand, h4: Hand)
    requires CardsAre(h0, 3, 2, 10, 3, 13) && CardsAre(h1, 10, 5, 5, 11, 5) && CardsAre(h2, 13, 13, 6, 7, 7)
    requires CardsAre(h3, 13, 10, 11, 11, 10) && CardsAre(h4, 12, 12, 12, 11, 14)
    ensures !HasEqualHands([h0, h1, h2, h3, h4])
    ensures SortByKey([h0, h1, h2, h3, h4], HandKeyOf(Normal)) == [h0, h3, h2, h1, h4]
  {
    var hs := [h0, h1, h2, h3, h4];
    DistinctSample1(h0, h1, h2, h3, h4);
    Permuted1(hs, [h0, h3, h2, h1, h4]);
    Ascending1(h0, h1, h2, h3, h4);
    var t := [h0, h3, h2, h1, h4];
    AscendingFive(t, HandKeyOf(Normal));
    KeysDiffer(Normal, t);
    SortedArrangement(hs, t, HandKeyOf(Normal));
  }

  /** The first answer for the sample, 32T3K 765, T55J5 684, KK677 28, KTJJT 220, QQQJA 483: 6440. */
  lemma SamplePart1(h0: Hand, h1: Hand, h2: Hand, h3: Hand, h4: Hand)
    requires CardsAre(h0, 3, 2, 10, 3, 13) && h0.bid == 765 && CardsAre(h1, 10, 5, 5, 11, 5) && h1.bid == 684
    requires CardsAre(h2, 13, 13, 6, 7, 7) && h2.bid == 28 && CardsAre(h3, 13, 10, 11, 11, 10) && h3.bid == 220
    requires CardsAre(h4, 12, 12, 12, 11, 14) && h4.bid == 483
    ensures !HasEqualHands([h0, h1, h2, h3, h4])
    ensures Winnings(SortByKey([h0, h1, h2, h3, h4], HandKeyOf(Normal))) == 6440
  {
    SortedSample1(h0, h1, h2, h3, h4);
    WinningsOfFive(h0, h3, h2, h1, h4);
  }

  /** Each hand of the arrangement has a key at most the next one's. */
  lemma Ascending2(h0: Hand, h1: Hand, h2: Hand, h3: Hand, h4: Hand)
    requires CardsAre(h0, 3, 2, 10, 3, 13) && CardsAre(h1, 10, 5, 5, 0, 5) && CardsAre(h2, 13, 13, 6, 7, 7)
    requires CardsAre(h3, 13, 10, 0, 0, 10) && CardsAre(h4, 12, 12, 12, 0, 14)
    ensures LexLe(HandKeyOf(Joker)(h0), HandKeyOf(Joker)(h2)) && LexLe(HandKeyOf(Joker)(h2), HandKeyOf(Joker)(h1))
    ensures LexLe(HandKeyOf(Joker)(h1), HandKeyOf(Joker)(h4)) && LexLe(HandKeyOf(Joker)(h4), HandKeyOf(Joker)(h3))
  {
    Order2First(h0, h2);
    Order2Second(h2, h1);
    Order2Third(h1, h4);
    Order2Fourth(h4, h3);
  }

  lemma DistinctSample2(h0: Hand, h1: Hand, h2: Hand, h3: Hand, h4: Hand)
    requires CardsAre(h0, 3, 2, 10, 3, 13) && CardsAre(h1, 10, 5, 5, 0, 5) && CardsAre(h2, 13, 13, 6, 7, 7)
    requires CardsAre(h3, 13, 10, 0, 0, 10) && CardsAre(h4, 12, 12, 12, 0, 14)
    ensures !HasEqualHands([h0, h1, h2, h3, h4]) && !HasEqualHands([h0, h2, h1, h4, h3])
  {
    NoEqualSample([h0, h1, h2, h3, h4]);
    NoEqualSample([h0, h2, h1, h4, h3]);
  }

  /** Exchanging the second with the third and the fourth with the fifth of five elements keeps
      the elements. */
  lemma Permuted2<T>(s: seq<T>, t: seq<T>)
    requires |s| == 5 && |t| == 5 && t[0] == s[0] && t[1] == s[2] && t[2] == s[1] && t[3] == s[4] && t[4] == s[3]
    ensures multiset(s) == multiset(t)
  {
    var u := s[1 := s[2]][2 := s[1]];
    SwapNeighbours(s, u, 1);
    SwapNeighbours(u, t, 3);
  }



  /** With jokers the sample hands sort as 32T3K, KK677, T55J5, QQQJA, KTJJT. */
  lemma SortedSample2(h0: Hand, h1: Hand, h2: Hand, h3: Hand, h4: Hand)
    requires CardsAre(h0, 3, 2, 10, 3, 13) && CardsAre(h1, 10, 5, 5, 0, 5) && CardsAre(h2, 13, 13, 6, 7, 7)
    requires CardsAre(h3, 13, 10, 0, 0, 10) && CardsAre(h4, 12, 12, 12, 0, 14)
    ensures !HasEqualHands([h0, h1, h2, h3, h4])
    ensures SortByKey([h0, h1, h2, h3, h4], HandKeyOf(Joker)) == [h0, h2, h1, h4, h3]
  {
    var hs := [h0, h1, h2, h3, h4];
    DistinctSample2(h0, h1, h2, h3, h4);
    Permuted2(hs, [h0, h2, h1, h4, h3]);
    Ascending2(h0, h1, h2, h3, h4);
    var t := [h0, h2, h1, h4, h3];
    AscendingFive(t, HandKeyOf(Joker));
    KeysDiffer(Joker, t);
    SortedArrangement(hs, t, HandKeyOf(Joker));
  }

  /** The second answer for the sample, where J is a joker: 5905. */
  lemma SamplePart2(h0: Hand, h1: Hand, h2: Hand, h3: Hand, h4: Hand)
    requires CardsAre(h0, 3, 2, 10, 3, 13) && h0.bid == 765 && CardsAre(h1, 10, 5, 5, 0, 5) && h1.bid == 684
    requires CardsAre(h2, 13, 13, 6, 7, 7) && h2.bid == 28 && CardsAre(h3, 13, 10, 0, 0, 10) && h3.bid == 220
    requires CardsAre(h4, 12, 12, 12, 0, 14) && h4.bid == 483
    ensures !HasEqualHands([h0, h1, h2, h3, h4])
    ensures Winnings(SortByKey([h0, h1, h2, h3, h4], HandKeyOf(Joker))) == 5905
  {
    SortedSample2(h0, h1, h2, h3, h4);
    WinningsOfFive(h0, h2, h1, h4, h3);
  }
}
