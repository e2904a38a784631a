/** 2015 day 8: string literals in code versus the characters they stand for, and re-encoded. */
module Y2015Day08 {
  import opened Outcomes
  import opened Text

  /** The number of characters the text of a quoted literal stands for, scanning from position
      `i` up to the closing quote: `\x` and two hex digits is one character, a backslash and any
      other character is one, any other character is one. */
  function Unescaped(s: string, i: nat): nat
    decreases |s| - i
  {
    if i >= |s| - 1 then 0
    else if s[i] == '\\' && s[i + 1] == 'x' then 1 + Unescaped(s, i + 4)
    else if s[i] == '\\' then 1 + Unescaped(s, i + 2)
    else 1 + Unescaped(s, i + 1)
  }

  /** Each decoded character takes at least one character of source. */
  lemma {:induction false} UnescapedBound(s: string, i: nat)
    requires i <= |s|
    ensures |s| >= 1 && i <= |s| - 1 ==> Unescaped(s, i) <= |s| - 1 - i
    ensures |s| == 0 || i == |s| ==> Unescaped(s, i) == 0
    decreases |s| - i
  {
    if i < |s| - 1 {
      if s[i] == '\\' && s[i + 1] == 'x' {
        if i + 4 <= |s| {
          UnescapedBound(s, i + 4);
        }
      } else if s[i] == '\\' {
        UnescapedBound(s, i + 2);
      } else {
        UnescapedBound(s, i + 1);
      }
    }
  }

  /** The decoded length of a quoted literal: the characters strictly between the quotes. */
  function DecodedLength(s: string): (n: nat)
    ensures |s| >= 2 ==> n <= |s| - 2
    ensures |s| < 2 ==> n == 0
  {
    UnescapedBound(s, if |s| == 0 then 0 else 1);
    Unescaped(s, 1)
  }

  /** `escaped_str_len`. */
  method EscapedStrLen(s: string) returns (l: nat)
    ensures l == DecodedLength(s)
  {
    l := 0;
    var i := 1;
    while i < |s| - 1
      invariant Unescaped(s, 1) == l + Unescaped(s, i)
      decreases |s| - i
    {
      var c := s[i];
      if c == '\\' {
        var c2 := s[i + 1];
        if c2 == 'x' {
          i := i + 3;
        } else {
          i := i + 1;
        }
      }
      i := i + 1;
      l := l + 1;
    }
  }

  /** One character of `encode_str`'s output body: backslash and quote are escaped. */
  function EscapeChar(c: char): (e: string)
    ensures |e| == if c == '\\' || c == '"' then 2 else 1
    ensures c == '\\' || c == '"' <==> e[0] == '\\'
  {
    if c == '\\' then "\\\\" else if c == '"' then "\\\"" else [c]
  }

  function EscapeBody(t: string): string {
    if t == [] then [] else EscapeChar(t[0]) + EscapeBody(t[1..])
  }

  /** `encode_str`: backslashes doubled, then quotes escaped, then the whole wrapped in quotes. */
  function EncodeStr(t: string): string {
    "\"" + ReplaceChar(ReplaceChar(t, '\\', "\\\\"), '"', "\\\"") + "\""
  }

  /** The two replacements in order escape each character once: the second never touches the
      backslashes the first introduced. */
  lemma {:induction false} ReplacementsEscape(t: string)
    ensures ReplaceChar(ReplaceChar(t, '\\', "\\\\"), '"', "\\\"") == EscapeBody(t)
  {
    if t != [] {
      ReplacementsEscape(t[1..]);
      var head := if t[0] == '\\' then "\\\\" else [t[0]];
      assert ReplaceChar(t, '\\', "\\\\") == head + ReplaceChar(t[1..], '\\', "\\\\");
      ReplaceAppend(head, ReplaceChar(t[1..], '\\', "\\\\"), '"', "\\\"");
      if t[0] == '\\' {
        assert ReplaceChar(head, '"', "\\\"") == "\\\\";
      } else {
        assert ReplaceChar(head, '"', "\\\"") == EscapeChar(t[0]);
      }
    }
  }

  lemma {:induction false} ReplaceAppend(a: string, b: string, c: char, r: string)
    ensures ReplaceChar(a + b, c, r) == ReplaceChar(a, c, r) + ReplaceChar(b, c, r)
  {
    if a == [] {
      assert a + b == b;
    } else {
      assert (a + b)[1..] == a[1..] + b;
      ReplaceAppend(a[1..], b, c, r);
    }
  }

  /** Every backslash and every quote costs one extra character, plus the two new quotes. */
  lemma {:induction false} EscapeBodyLength(t: string)
    ensures |EscapeBody(t)| == |t| + Count(t, '\\') + Count(t, '"')
  {
    if t != [] {
      EscapeBodyLength(t[1..]);
    }
  }

  lemma EncodedLength(t: string)
    ensures |EncodeStr(t)| == |t| + 2 + Count(t, '\\') + Count(t, '"')
  {
    ReplacementsEscape(t);
    EscapeBodyLength(t);
  }

  /** Scanning an escaped body followed by the closing quote counts the original characters. */
  lemma {:induction false} UnescapedEscapeBody(p: string, t: string)
    ensures Unescaped(p + EscapeBody(t) + "\"", |p|) == |t|
    decreases |t|
  {
    var s := p + EscapeBody(t) + "\"";
    if t == [] {
      assert |s| == |p| + 1;
    } else {
      var e := EscapeChar(t[0]);
      assert EscapeBody(t) == e + EscapeBody(t[1..]);
      assert s == (p + e) + EscapeBody(t[1..]) + "\"";
      UnescapedEscapeBody(p + e, t[1..]);
      assert s[|p|] == e[0];
      if |e| == 2 {
        assert s[|p| + 1] == e[1] && e[1] != 'x';
      }
    }
  }

  /** Decoding what `encode_str` produced gives back the original length: the two parts are
      inverse to each other. */
  lemma DecodeEncode(t: string)
    ensures DecodedLength(EncodeStr(t)) == |t|
  {
    ReplacementsEscape(t);
    UnescapedEscapeBody("\"", t);
  }

  function TotalLength(lines: seq<string>): nat {
    if lines == [] then 0 else |lines[0]| + TotalLength(lines[1..])
  }

  function TotalDecoded(lines: seq<string>): (n: nat)
    ensures n <= TotalLength(lines)
  {
    if lines == [] then 0 else DecodedLength(lines[0]) + TotalDecoded(lines[1..])
  }

  function TotalEncoded(lines: seq<string>): (n: nat)
    ensures n >= TotalLength(lines)
  {
    if lines == [] then 0 else (EncodedLength(lines[0]); |EncodeStr(lines[0])|) + TotalEncoded(lines[1..])
  }

  /** `day08_1`: the characters of code minus the characters they stand for. The `u128`
      subtraction cannot underflow: no literal decodes to more than it is written with. */
  function Part1(input: string): (r: Result<nat>)
    ensures r.Ok? && r.value + TotalDecoded(Lines(input)) == TotalLength(Lines(input))
  {
    Ok(TotalLength(Lines(input)) - TotalDecoded(Lines(input)))
  }

  /** `day08_2`: the characters of the re-encoded lines minus the characters of code. */
  function Part2(input: string): (r: Result<nat>)
    ensures r.Ok? && r.value + TotalLength(Lines(input)) == TotalEncoded(Lines(input))
  {
    Ok(TotalEncoded(Lines(input)) - TotalLength(Lines(input)))
  }

  function EncodeAll(lines: seq<string>): (e: seq<string>)
    ensures |e| == |lines| && forall i :: 0 <= i < |lines| ==> e[i] == EncodeStr(lines[i])
  {
    if lines == [] then [] else [EncodeStr(lines[0])] + EncodeAll(lines[1..])
  }

  /** Part two's extra characters are part one's overhead of the encoded lines. */
  lemma {:induction false} EncodedOverhead(lines: seq<string>)
    ensures TotalLength(EncodeAll(lines)) - TotalDecoded(EncodeAll(lines)) == TotalEncoded(lines) - TotalLength(lines)
  {
    if lines != [] {
      EncodedOverhead(lines[1..]);
      DecodeEncode(lines[0]);
      assert EncodeAll(lines)[1..] == EncodeAll(lines[1..]);
    }
  }

  /** The extra characters of part two, line by line. */
  lemma {:induction false} Part2Counts(lines: seq<string>)
    ensures TotalEncoded(lines) - TotalLength(lines) == CountsOf(lines)
  {
    if lines != [] {
      Part2Counts(lines[1..]);
      EncodedLength(lines[0]);
    }
  }

  function CountsOf(lines: seq<string>): nat {
    if lines == [] then 0 else 2 + Count(lines[0], '\\') + Count(lines[0], '"') + CountsOf(lines[1..])
  }

  lemma Fixtures()
    ensures DecodedLength("\"\"") == 0 && DecodedLength("\"abc\"") == 3
    ensures DecodedLength("\"\\x27\"") == 1
  {
  }

  lemma FixtureEscapedQuote()
    ensures DecodedLength("\"aaa\\\"aaa\"") == 7
  {
  }

  lemma EncodedEmpty()
    ensures |EncodeStr("\"\"")| == 6
  {
    EncodedLength("\"\"");
  }

  lemma EncodedAbc()
    ensures |EncodeStr("\"abc\"")| == 9
  {
    EncodedLength("\"abc\"");
  }

  lemma EncodedEscapedQuote()
    ensures |EncodeStr("\"aaa\\\"aaa\"")| == 16
  {
    var s := "\"aaa\\\"aaa\"";
    EncodedLength(s);
    assert Count(s, '\\') == 1;
    assert Count(s, '"') == 3;
  }

  lemma EncodedHex()
    ensures |EncodeStr("\"\\x27\"")| == 11
  {
    EncodedLength("\"\\x27\"");
  }

  lemma FourLines(a: string, b: string, c: string, d: string)
    ensures TotalLength([a, b, c, d]) == |a| + |b| + |c| + |d|
    ensures TotalDecoded([a, b, c, d]) == DecodedLength(a) + DecodedLength(b) + DecodedLength(c) + DecodedLength(d)
    ensures TotalEncoded([a, b, c, d]) == |EncodeStr(a)| + |EncodeStr(b)| + |EncodeStr(c)| + |EncodeStr(d)|
  {
    var block := [a, b, c, d];
    assert block[1..] == [b, c, d] && block[1..][1..] == [c, d] && block[1..][1..][1..] == [d];
    assert [d][1..] == [];
    assert TotalLength([d]) == |d| && TotalDecoded([d]) == DecodedLength(d) && TotalEncoded([d]) == |EncodeStr(d)|;
    assert TotalLength([c, d]) == |c| + |d|;
    assert TotalDecoded([c, d]) == DecodedLength(c) + DecodedLength(d);
    assert TotalEncoded([c, d]) == |EncodeStr(c)| + |EncodeStr(d)|;
    assert TotalLength([b, c, d]) == |b| + |c| + |d|;
    assert TotalDecoded([b, c, d]) == DecodedLength(b) + DecodedLength(c) + DecodedLength(d);
    assert TotalEncoded([b, c, d]) == |EncodeStr(b)| + |EncodeStr(c)| + |EncodeStr(d)|;
  }

  /** The four-line sample: 12 for part one and 19 for part two. */
  lemma BlockFixture()
    ensures var block := ["\"\"", "\"abc\"", "\"aaa\\\"aaa\"", "\"\\x27\""];
      TotalLength(block) - TotalDecoded(block) == 12 && TotalEncoded(block) - TotalLength(block) == 19
  {
    Fixtures();
    FixtureEscapedQuote();
    EncodedEmpty();
    EncodedAbc();
    EncodedEscapedQuote();
    EncodedHex();
    FourLines("\"\"", "\"abc\"", "\"aaa\\\"aaa\"", "\"\\x27\"");
  }
}
