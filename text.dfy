/** The parts of Rust's `str` API that the solutions use, as functions over `string`.
    Lengths count characters; `Utf8Len` gives the byte length `str::len` measures, where it differs. */
module Text {
  import opened Outcomes

  // ---------------------------------------------------------------------------------------------
  // Characters

  predicate IsDigit(c: char) { '0' <= c <= '9' }

  /** The number of bytes of `c` in UTF-8. */
  function Utf8Width(c: char): (n: nat)
    ensures 1 <= n <= 4 && (n == 1 <==> (c as int) < 0x80)
  {
    if (c as int) < 0x80 then 1 else if (c as int) < 0x800 then 2 else if (c as int) < 0x1_0000 then 3 else 4
  }

  /** `str::len`: the length in bytes, never less than the number of characters. */
  function Utf8Len(s: string): (n: nat)
    ensures n >= |s|
  {
    if s == [] then 0 else Utf8Width(s[0]) + Utf8Len(s[1..])
  }

  predicate IsAscii(s: string) {
    forall k :: 0 <= k < |s| ==> (s[k] as int) < 0x80
  }

  /** A byte length equal to the number of characters means every character is ASCII. */
  lemma {:induction false} Utf8LenAscii(s: string)
    ensures Utf8Len(s) == |s| <==> IsAscii(s)
  {
    if s != [] {
      Utf8LenAscii(s[1..]);
      assert forall k :: 1 <= k < |s| ==> s[k] == s[1..][k - 1];
    }
  }

  function DigitValue(c: char): (d: nat)
    requires IsDigit(c)
    ensures d < 10
  {
    (c as int) - ('0' as int)
  }

  function DigitChar(d: nat): (c: char)
    requires d < 10
    ensures IsDigit(c) && DigitValue(c) == d
  {
    (('0' as int) + d) as char
  }

  /** The ASCII whitespace set of `char::is_ascii_whitespace`. */
  predicate IsAsciiWhitespace(c: char) {
    c == ' ' || c == '\t' || c == '\n' || c == '\r' || c == '\U{000C}'
  }

  /** Number of occurrences of `c` in `s`. */
  function Count(s: string, c: char): (n: nat)
    ensures n <= |s|
  {
    if s == [] then 0 else (if s[0] == c then 1 else 0) + Count(s[1..], c)
  }

  lemma {:induction false} CountAppend(a: string, b: string, c: char)
    ensures Count(a + b, c) == Count(a, c) + Count(b, c)
  {
    if a == [] {
      assert a + b == b;
    } else {
      assert (a + b)[1..] == a[1..] + b;
      CountAppend(a[1..], b, c);
    }
  }

  // ---------------------------------------------------------------------------------------------
  // Searching

  /** Index of the first `c` in `s`, or `|s|` when there is none. */
  function IndexOfChar(s: string, c: char): (i: nat)
    ensures i <= |s|
    ensures i < |s| ==> s[i] == c
    ensures forall k :: 0 <= k < i ==> s[k] != c
  {
    if s == [] then 0 else if s[0] == c then 0 else 1 + IndexOfChar(s[1..], c)
  }

  predicate StartsWith(s: string, p: string) {
    |p| <= |s| && s[..|p|] == p
  }

  /** Byte offset of the first occurrence of the non-empty pattern `p` (`str::find`). */
  function Find(s: string, p: string): (r: Option<nat>)
    requires p != []
    ensures r.Some? ==> r.value + |p| <= |s| && StartsWith(s[r.value..], p)
    ensures r.Some? ==> forall k :: 0 <= k < r.value ==> !StartsWith(s[k..], p)
    ensures r.None? ==> forall k :: 0 <= k <= |s| ==> !StartsWith(s[k..], p)
  {
    if |s| < |p| then None
    else if StartsWith(s, p) then Some(0)
    else match Find(s[1..], p)
      case None => (assert forall k :: 1 <= k <= |s| ==> s[k..] == s[1..][k - 1..]; None)
      case Some(k) => (assert forall j :: 1 <= j <= |s| ==> s[j..] == s[1..][j - 1..]; Some(k + 1))
  }

  /** The first occurrence of `p` is right after `a` when `a` cannot start one. */
  lemma {:induction false} FindAt(a: string, p: string, b: string)
    requires p != [] && p[0] !in a
    ensures Find(a + p + b, p) == Some(|a|)
  {
    var s := a + p + b;
    if a != [] {
      assert s[0] == a[0] && s[..|p|][0] == s[0];
      assert s[1..] == a[1..] + p + b;
      FindAt(a[1..], p, b);
    } else {
      assert s == p + b && s[..|p|] == p;
    }
  }

  /** `str::split_once`: the text before and after the first occurrence of `p`. */
  function SplitOnce(s: string, p: string): (r: Option<(string, string)>)
    requires p != []
    ensures r.None? <==> Find(s, p).None?
    ensures r.Some? ==> s == r.value.0 + p + r.value.1 && Find(s, p) == Some(|r.value.0|)
  {
    match Find(s, p)
    case None => None
    case Some(i) =>
      assert s == s[..i] + p + s[i + |p|..] by {
        assert s[i..][..|p|] == p;
        assert s[i..i + |p|] == p;
      }
      Some((s[..i], s[i + |p|..]))
  }

  /** The first occurrence of `p` is right after `a` when `a` contains `p[1]`, which differs from `p[0]`. */
  lemma FindAtSecond(a: string, p: string, b: string)
    requires |p| >= 2 && p[1] != p[0] && p[1] !in a
    ensures Find(a + p + b, p) == Some(|a|)
  {
    var s := a + p + b;
    assert s[|a|..][..|p|] == p;
    forall k | 0 <= k < |a|
      ensures !StartsWith(s[k..], p)
    {
      if k + 1 < |a| {
        assert s[k..][1] == a[k + 1];
      } else {
        assert s[k..][1] == p[0];
      }
    }
  }

  lemma SplitOnceAt(a: string, p: string, b: string)
    requires p != [] && p[0] !in a
    ensures SplitOnce(a + p + b, p) == Some((a, b))
  {
    FindAt(a, p, b);
    var s := a + p + b;
    assert s[..|a|] == a && s[|a| + |p|..] == b;
  }

  /** `str::split` with a non-empty pattern: always at least one piece. */
  function Split(s: string, p: string): (r: seq<string>)
    requires p != []
    ensures |r| >= 1
    decreases |s|
  {
    match SplitOnce(s, p)
    case None => [s]
    case Some((a, b)) => [a] + Split(b, p)
  }

  lemma {:induction false} FindAbsent(s: string, p: string)
    requires p != [] && p[0] !in s
    ensures Find(s, p) == None
  {
    if |s| >= |p| {
      assert s[..|p|][0] == s[0];
      assert s[1..] == s[1..];
      assert forall k :: 0 <= k < |s| - 1 ==> s[1..][k] == s[k + 1];
      FindAbsent(s[1..], p);
    }
  }

  /** Splitting at a first separator right after `a`. */
  lemma SplitCons(a: string, p: string, b: string)
    requires p != [] && p[0] !in a
    ensures Split(a + p + b, p) == [a] + Split(b, p)
  {
    SplitOnceAt(a, p, b);
  }

  /** A string without the separator is a single piece. */
  lemma SplitLast(s: string, p: string)
    requires p != [] && p[0] !in s
    ensures Split(s, p) == [s]
  {
    FindAbsent(s, p);
  }

  function Join(pieces: seq<string>, sep: string): string {
    if pieces == [] then [] else if |pieces| == 1 then pieces[0] else pieces[0] + sep + Join(pieces[1..], sep)
  }

  lemma {:induction false} SplitJoin(s: string, p: string)
    requires p != []
    ensures Join(Split(s, p), p) == s
    decreases |s|
  {
    match SplitOnce(s, p)
    case None =>
    case Some((a, b)) =>
      SplitJoin(b, p);
      assert Split(s, p) == [a] + Split(b, p);
  }

  lemma JoinThree(a: string, b: string, c: string, sep: string)
    ensures Join([a, b, c], sep) == a + sep + b + sep + c
  {
    assert [a, b, c][1..] == [b, c] && [b, c][1..] == [c];
    assert Join([b, c], sep) == b + sep + c;
  }

  lemma {:induction false} JoinExcludes(pieces: seq<string>, sep: string, c: char)
    requires c !in sep && forall i :: 0 <= i < |pieces| ==> c !in pieces[i]
    ensures c !in Join(pieces, sep)
  {
    if |pieces| > 1 {
      JoinExcludes(pieces[1..], sep, c);
    }
  }

  /** Splitting pieces joined by a separator whose first character none of them contains gives
      the pieces back. */
  lemma {:induction false} JoinSplit(pieces: seq<string>, p: string)
    requires p != [] && |pieces| >= 1
    requires forall i :: 0 <= i < |pieces| ==> p[0] !in pieces[i]
    ensures Split(Join(pieces, p), p) == pieces
  {
    if |pieces| == 1 {
      SplitLast(pieces[0], p);
    } else {
      JoinSplit(pieces[1..], p);
      SplitCons(pieces[0], p, Join(pieces[1..], p));
    }
  }

  // ---------------------------------------------------------------------------------------------
  // Lines

  /** `str::lines` for `\n`-terminated text: a final newline does not start another line. */
  function Lines(s: string): (ls: seq<string>)
    ensures forall i :: 0 <= i < |ls| ==> '\n' !in ls[i]
    ensures s == [] <==> ls == []
    decreases |s|
  {
    if s == [] then []
    else
      var i := IndexOfChar(s, '\n');
      if i == |s| then [s] else [s[..i]] + Lines(s[i + 1..])
  }

  lemma LinesOfLine(a: string)
    requires a != [] && '\n' !in a
    ensures Lines(a) == [a]
  {
    assert IndexOfChar(a, '\n') == |a|;
  }

  /** Non-empty lines joined by newlines are the lines of the text. */
  lemma {:induction false} LinesOfJoin(pieces: seq<string>)
    requires forall i :: 0 <= i < |pieces| ==> pieces[i] != [] && '\n' !in pieces[i]
    ensures Lines(Join(pieces, "\n")) == pieces
  {
    if |pieces| == 1 {
      LinesOfLine(pieces[0]);
    } else if |pieces| > 1 {
      LinesOfJoin(pieces[1..]);
      LinesCons(pieces[0], Join(pieces[1..], "\n"));
    }
  }

  lemma LinesCons(a: string, b: string)
    requires '\n' !in a
    ensures Lines(a + "\n" + b) == [a] + Lines(b)
  {
    var s := a + "\n" + b;
    assert s[|a|] == '\n';
    assert IndexOfChar(s, '\n') == |a|;
    assert s[..|a|] == a && s[|a| + 1..] == b;
  }

  // ---------------------------------------------------------------------------------------------
  // Whitespace-separated words

  /** Length of the leading run of non-whitespace characters. */
  function WordLength(s: string): (n: nat)
    ensures n <= |s|
    ensures forall k :: 0 <= k < n ==> !IsAsciiWhitespace(s[k])
    ensures n < |s| ==> IsAsciiWhitespace(s[n])
  {
    if s == [] || IsAsciiWhitespace(s[0]) then 0 else 1 + WordLength(s[1..])
  }

  /** `str::split_ascii_whitespace`: the non-empty maximal runs of non-whitespace characters. */
  function Words(s: string): (ws: seq<string>)
    ensures forall i :: 0 <= i < |ws| ==> ws[i] != [] && forall k :: 0 <= k < |ws[i]| ==> !IsAsciiWhitespace(ws[i][k])
    decreases |s|
  {
    if s == [] then []
    else if IsAsciiWhitespace(s[0]) then Words(s[1..])
    else var n := WordLength(s); [s[..n]] + Words(s[n..])
  }

  lemma {:induction false} WordsOfWord(w: string)
    requires w != [] && forall k :: 0 <= k < |w| ==> !IsAsciiWhitespace(w[k])
    ensures Words(w) == [w]
  {
    WordLengthOfWord(w);
    assert w[..|w|] == w && w[|w|..] == [];
  }

  lemma {:induction false} WordLengthOfWord(w: string)
    requires forall k :: 0 <= k < |w| ==> !IsAsciiWhitespace(w[k])
    ensures WordLength(w) == |w|
  {
    if w != [] {
      WordLengthOfWord(w[1..]);
    }
  }

  /** A word followed by a space and more text: the word comes first. */
  lemma WordsCons(w: string, rest: string)
    requires w != [] && forall k :: 0 <= k < |w| ==> !IsAsciiWhitespace(w[k])
    ensures Words(w + " " + rest) == [w] + Words(rest)
  {
    var s := w + " " + rest;
    assert s[0] == w[0];
    assert forall k :: 0 <= k < |w| ==> s[k] == w[k];
    assert s[|w|] == ' ';
    assert WordLength(s) == |w|;
    assert s[..|w|] == w;
    var t := s[|w|..];
    assert t == " " + rest;
    assert t[1..] == rest;
  }

  /** Leading whitespace separates nothing. */
  lemma WordsSpaceBefore(s: string)
    ensures Words(" " + s) == Words(s)
  {
    assert (" " + s)[1..] == s;
  }

  lemma {:induction false} WordLengthAppend(s: string, t: string)
    requires WordLength(s) < |s| || (t != [] && IsAsciiWhitespace(t[0]))
    ensures WordLength(s + t) == WordLength(s)
  {
    if s != [] && !IsAsciiWhitespace(s[0]) {
      assert (s + t)[1..] == s[1..] + t;
      WordLengthAppend(s[1..], t);
    } else if s == [] {
      assert s + t == t;
    }
  }

  /** Trailing whitespace separates nothing either. */
  lemma {:induction false} WordsSpaceAfter(s: string)
    ensures Words(s + " ") == Words(s)
    decreases |s|
  {
    var t := s + " ";
    if s == [] {
      assert t[1..] == [];
    } else if IsAsciiWhitespace(s[0]) {
      assert t[1..] == s[1..] + " ";
      WordsSpaceAfter(s[1..]);
    } else {
      var n := WordLength(s);
      WordLengthAppend(s, " ");
      assert t[..n] == s[..n];
      assert t[n..] == s[n..] + " ";
      if n < |s| {
        WordsSpaceAfter(s[n..]);
      } else {
        assert s[n..] == [] && t[n..] == " " && t[n..][1..] == [];
      }
    }
  }

  /** Words joined by single spaces are split back into the same words. */
  lemma {:induction false} WordsJoin(ws: seq<string>)
    requires forall i :: 0 <= i < |ws| ==> ws[i] != [] && forall k :: 0 <= k < |ws[i]| ==> !IsAsciiWhitespace(ws[i][k])
    ensures Words(Join(ws, " ")) == ws
  {
    if |ws| == 1 {
      WordsOfWord(ws[0]);
    } else if |ws| > 1 {
      WordsJoin(ws[1..]);
      WordsCons(ws[0], Join(ws[1..], " "));
    }
  }

  /** Two words separated by a space. */
  lemma WordsTwo(a: string, b: string)
    requires a != [] && forall k :: 0 <= k < |a| ==> !IsAsciiWhitespace(a[k])
    requires b != [] && forall k :: 0 <= k < |b| ==> !IsAsciiWhitespace(b[k])
    ensures Words(a + " " + b) == [a, b]
  {
    WordsOfWord(b);
    WordsCons(a, b);
  }

  /** Three words separated by single spaces. */
  lemma WordsThree(a: string, b: string, c: string)
    requires a != [] && forall k :: 0 <= k < |a| ==> !IsAsciiWhitespace(a[k])
    requires b != [] && forall k :: 0 <= k < |b| ==> !IsAsciiWhitespace(b[k])
    requires c != [] && forall k :: 0 <= k < |c| ==> !IsAsciiWhitespace(c[k])
    ensures Words(a + " " + b + " " + c) == [a, b, c]
  {
    WordsTwo(b, c);
    assert a + " " + b + " " + c == a + " " + (b + " " + c);
    WordsCons(a, b + " " + c);
  }

  // ---------------------------------------------------------------------------------------------
  // Trimming and prefixes

  function StripPrefix(s: string, p: string): (r: Option<string>)
    ensures r.Some? <==> StartsWith(s, p)
    ensures r.Some? ==> s == p + r.value
  {
    if StartsWith(s, p) then Some(s[|p|..]) else None
  }

  function StripSuffix(s: string, p: string): (r: Option<string>)
    ensures r.Some? ==> s == r.value + p
    ensures r.None? ==> !(|p| <= |s| && s[|s| - |p|..] == p)
  {
    if |p| <= |s| && s[|s| - |p|..] == p then Some(s[..|s| - |p|]) else None
  }

  /** `str::trim_start_matches` with a non-empty string pattern: removes every leading repetition. */
  function TrimStartMatches(s: string, p: string): (r: string)
    requires p != []
    ensures |r| <= |s| && !StartsWith(r, p)
    ensures StartsWith(s, p) ==> r == TrimStartMatches(s[|p|..], p)
    decreases |s|
  {
    if StartsWith(s, p) then TrimStartMatches(s[|p|..], p) else s
  }

  function TrimStart(s: string): (r: string)
    ensures r == [] || !IsAsciiWhitespace(r[0])
    ensures |r| <= |s| && r == s[|s| - |r|..]
  {
    if s != [] && IsAsciiWhitespace(s[0]) then TrimStart(s[1..]) else s
  }

  function TrimEnd(s: string): (r: string)
    ensures r == [] || !IsAsciiWhitespace(r[|r| - 1])
    ensures |r| <= |s| && r == s[..|r|]
  {
    if s != [] && IsAsciiWhitespace(s[|s| - 1]) then TrimEnd(s[..|s| - 1]) else s
  }

  function Trim(s: string): string {
    TrimEnd(TrimStart(s))
  }

  /** Trimming a string that starts with one space and has no whitespace at either end of the rest. */
  lemma TrimAfterSpace(d: string)
    requires d != [] && !IsAsciiWhitespace(d[0]) && !IsAsciiWhitespace(d[|d| - 1])
    ensures Trim(" " + d) == d
  {
    assert (" " + d)[1..] == d;
    assert TrimStart(" " + d) == d;
  }

  /** `str::replace` of one character by a string. */
  function ReplaceChar(s: string, c: char, t: string): (r: string)
    ensures c !in t ==> c !in r
  {
    if s == [] then [] else (if s[0] == c then t else [s[0]]) + ReplaceChar(s[1..], c, t)
  }

  // ---------------------------------------------------------------------------------------------
  // Numbers

  predicate AllDigits(s: string) {
    forall k :: 0 <= k < |s| ==> IsDigit(s[k])
  }

  lemma NotInDigits(s: string, c: char)
    requires AllDigits(s) && !IsDigit(c)
    ensures c !in s
  {
    assert forall k :: 0 <= k < |s| ==> s[k] != c;
  }

  /** The value of a string of decimal digits, most significant first. */
  function DigitsValue(s: string): nat
    requires AllDigits(s)
  {
    if s == [] then 0 else 10 * DigitsValue(s[..|s| - 1]) + DigitValue(s[|s| - 1])
  }

  lemma {:induction false} DigitsValueLeadingZero(s: string)
    requires AllDigits(s)
    ensures AllDigits("0" + s) && DigitsValue("0" + s) == DigitsValue(s)
  {
    var z := "0" + s;
    assert AllDigits(z) by {
      assert forall k :: 1 <= k < |z| ==> z[k] == s[k - 1];
    }
    if s != [] {
      assert z[..|z| - 1] == "0" + s[..|s| - 1];
      DigitsValueLeadingZero(s[..|s| - 1]);
    } else {
      assert z[..0] == [];
    }
  }

  /** `FromStr` for an unsigned integer type whose values are below `limit`:
      an optional `+`, then at least one decimal digit, and no overflow. */
  function ParseUnsigned(s: string, limit: nat): (r: Option<nat>)
    ensures r.Some? ==> r.value < limit
    ensures AllDigits(s) && s != [] && DigitsValue(s) < limit ==> r == Some(DigitsValue(s))
  {
    var d := if s != [] && s[0] == '+' then s[1..] else s;
    if d != [] && AllDigits(d) && DigitsValue(d) < limit then Some(DigitsValue(d)) else None
  }

  /** `FromStr` for a signed integer type whose values lie in `[-limit, limit)`. */
  function ParseSigned(s: string, limit: nat): (r: Option<int>)
    requires limit > 0
    ensures r.Some? ==> -(limit as int) <= r.value < limit
  {
    if s != [] && s[0] == '-' then
      var d := s[1..];
      if d != [] && AllDigits(d) && DigitsValue(d) <= limit then var v: int := DigitsValue(d); Some(-v) else None
    else
      match ParseUnsigned(s, limit)
      case None => None
      case Some(v) => Some(v)
  }

  /** The kind of a `ParseIntError`. */
  datatype IntErrorKind = Empty | InvalidDigit | PosOverflow | NegOverflow

  /** The `Display` text of a `ParseIntError`, which `?` passes on. */
  function IntErrorText(k: IntErrorKind): string {
    match k
    case Empty => "cannot parse integer from empty string"
    case InvalidDigit => "invalid digit found in string"
    case PosOverflow => "number too large to fit in target type"
    case NegOverflow => "number too small to fit in target type"
  }

  /** The `Debug` text of a `ParseIntError`, which `Result::unwrap` prints. */
  function IntErrorDebug(k: IntErrorKind): string {
    "ParseIntError { kind: " +
    (match k
     case Empty => "Empty"
     case InvalidDigit => "InvalidDigit"
     case PosOverflow => "PosOverflow"
     case NegOverflow => "NegOverflow") + " }"
  }

  /** The digit loop of `from_str_radix` from position `k` of `d`, the digits before `k` having a
      value of at most `max`. Each character is checked before the value it adds: the first
      non-digit gives `InvalidDigit`, and the first digit that takes the value above `max` gives
      `over`, whichever comes first. `None` when the loop finishes. */
  function DigitScan(d: string, k: nat, max: nat, over: IntErrorKind): (r: Option<IntErrorKind>)
    requires over == PosOverflow || over == NegOverflow
    requires k <= |d| && AllDigits(d[..k]) && DigitsValue(d[..k]) <= max
    ensures r.Some? ==> r.value == InvalidDigit || r.value == over
    ensures r == Some(InvalidDigit) ==> !AllDigits(d)
    decreases |d| - k
  {
    if k == |d| then None
    else if !IsDigit(d[k]) then Some(InvalidDigit)
    else
      assert d[..k + 1][..k] == d[..k];
      if DigitsValue(d[..k + 1]) > max then Some(over) else DigitScan(d, k + 1, max, over)
  }

  /** The value of a prefix of a digit string is at most the value of the whole. */
  lemma {:induction false} PrefixValueBelow(d: string, j: nat)
    requires AllDigits(d) && j <= |d|
    ensures AllDigits(d[..j]) && DigitsValue(d[..j]) <= DigitsValue(d)
    decreases |d|
  {
    if j < |d| {
      var e := d[..|d| - 1];
      PrefixValueBelow(e, j);
      assert e[..j] == d[..j];
    } else {
      assert d[..j] == d;
    }
  }

  /** The digit loop finishes exactly on digit strings whose value is at most `max`. */
  lemma {:induction false} DigitScanNone(d: string, k: nat, max: nat, over: IntErrorKind)
    requires over == PosOverflow || over == NegOverflow
    requires k <= |d| && AllDigits(d[..k]) && DigitsValue(d[..k]) <= max
    ensures DigitScan(d, k, max, over).None? <==> AllDigits(d) && DigitsValue(d) <= max
    decreases |d| - k
  {
    if k == |d| {
      assert d[..k] == d;
    } else if IsDigit(d[k]) {
      assert d[..k + 1][..k] == d[..k];
      if DigitsValue(d[..k + 1]) > max {
        if AllDigits(d) {
          PrefixValueBelow(d, k + 1);
        }
      } else {
        DigitScanNone(d, k + 1, max, over);
      }
    }
  }

  /** The error `FromStr` gives for `s`, for a type whose values lie in `[0, limit)` when unsigned
      and in `[-limit, limit)` when signed; `None` when `s` parses. A lone sign is an invalid digit,
      and an unsigned type takes '-' as an invalid digit. */
  function IntError(s: string, signed: bool, limit: nat): (r: Option<IntErrorKind>)
    requires limit > 0
    ensures r == Some(Empty) <==> s == []
    ensures r == Some(NegOverflow) ==> signed && s[0] == '-'
    ensures r == Some(PosOverflow) ==> s[0] != '-'
  {
    assert forall d: string :: d[..0] == [];
    if s == [] then Some(Empty)
    else if s == "+" || s == "-" then Some(InvalidDigit)
    else if s[0] == '-' && signed then DigitScan(s[1..], 0, limit, NegOverflow)
    else if s[0] == '+' then DigitScan(s[1..], 0, limit - 1, PosOverflow)
    else DigitScan(s, 0, limit - 1, PosOverflow)
  }

  /** An unsigned parse fails exactly when `IntError` names an error. */
  lemma ParseUnsignedError(s: string, limit: nat)
    requires limit > 0
    ensures ParseUnsigned(s, limit).None? <==> IntError(s, false, limit).Some?
  {
    assert forall d: string :: d[..0] == [];
    if s != [] && s != "+" && s != "-" {
      if s[0] == '+' {
        DigitScanNone(s[1..], 0, limit - 1, PosOverflow);
      } else {
        DigitScanNone(s, 0, limit - 1, PosOverflow);
      }
    }
  }

  /** A signed parse fails exactly when `IntError` names an error. */
  lemma ParseSignedError(s: string, limit: nat)
    requires limit > 0
    ensures ParseSigned(s, limit).None? <==> IntError(s, true, limit).Some?
  {
    assert forall d: string :: d[..0] == [];
    if s != [] && s != "+" && s != "-" {
      if s[0] == '-' {
        DigitScanNone(s[1..], 0, limit, NegOverflow);
      } else {
        ParseUnsignedError(s, limit);
      }
    }
  }

  /** The `Display` text of the error of a parse that fails. */
  function IntErrorMessage(s: string, signed: bool, limit: nat): string
    requires limit > 0 && IntError(s, signed, limit).Some?
  {
    IntErrorText(IntError(s, signed, limit).value)
  }

  /** The panic of `Result::unwrap` on the error of a parse that fails. */
  function UnwrapIntError(s: string, signed: bool, limit: nat): string
    requires limit > 0 && IntError(s, signed, limit).Some?
  {
    UNWRAP_ERR + ": " + IntErrorDebug(IntError(s, signed, limit).value)
  }

  /** The error kinds on small inputs: the empty string; a '-' that only a signed type accepts;
      an overflow that the loop meets before a later bad character. */
  lemma IntErrorKinds()
    ensures IntError("", false, 10) == Some(Empty)
    ensures IntError("-5", false, 10) == Some(InvalidDigit)
    ensures IntError("-5", true, 10) == None
    ensures IntError("-11", true, 10) == Some(NegOverflow)
    ensures IntError("12", false, 10) == Some(PosOverflow)
    ensures IntError("12x", false, 10) == Some(PosOverflow)
    ensures IntError("1x2", false, 10) == Some(InvalidDigit)
  {
    assert "-5"[1..] == "5" && "5"[..1] == "5";
    assert "-11"[1..] == "11" && "11"[..1] == "1" && "11"[..2] == "11";
    assert "12"[..1] == "1" && "12"[..2] == "12";
    assert "12x"[..1] == "1" && "12x"[..2] == "12";
    assert "1x2"[..1] == "1";
  }

  const U16_LIMIT: nat := 0x1_0000
  const I32_LIMIT: nat := 0x8000_0000
  const I64_LIMIT: nat := 0x8000_0000_0000_0000
  const U64_LIMIT: nat := 0x1_0000_0000_0000_0000
  const U128_BOUND: nat := 0x1_0000_0000_0000_0000_0000_0000_0000_0000

  /** The decimal representation of `n` (Rust's `Display` for integers). */
  function Decimal(n: nat): (s: string)
    ensures s != [] && AllDigits(s)
  {
    if n < 10 then [DigitChar(n)] else Decimal(n / 10) + [DigitChar(n % 10)]
  }

  lemma {:induction false} DecimalValue(n: nat)
    ensures DigitsValue(Decimal(n)) == n
  {
    var s := Decimal(n);
    if n >= 10 {
      DecimalValue(n / 10);
      assert s[..|s| - 1] == Decimal(n / 10);
    }
  }

  /** Parsing the decimal representation gives the number back. */
  lemma DecimalRoundTrip(n: nat, limit: nat)
    requires n < limit
    ensures ParseUnsigned(Decimal(n), limit) == Some(n)
  {
    DecimalValue(n);
  }

  /** The decimal representation of a signed integer, with a leading '-' when negative. */
  function SignedDecimal(i: int): (s: string)
    ensures s != [] && forall k :: 0 <= k < |s| ==> !IsAsciiWhitespace(s[k])
  {
    var n: nat := if i < 0 then -i else i;
    assert forall k :: 0 <= k < |Decimal(n)| ==> IsDigit(Decimal(n)[k]);
    if i < 0 then "-" + Decimal(n) else Decimal(n)
  }

  /** Parsing the signed decimal representation gives the number back. */
  lemma SignedRoundTrip(i: int, limit: nat)
    requires -(limit as int) <= i < limit
    ensures ParseSigned(SignedDecimal(i), limit) == Some(i)
  {
    var n: nat := if i < 0 then -i else i;
    DecimalValue(n);
    var s := SignedDecimal(i);
    if i < 0 {
      assert s[1..] == Decimal(n);
    } else {
      assert IsDigit(s[0]);
    }
  }

  /** `format!("{:0>2}", s)`: pad on the left with '0' to at least two characters. */
  function PadTwo(s: string): (r: string)
    ensures |r| == if |s| < 2 then 2 else |s|
    ensures r[|r| - |s|..] == s
  {
    if |s| == 0 then "00" else if |s| == 1 then "0" + s else s
  }
}
