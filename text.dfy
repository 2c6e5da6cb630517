/** Text primitives the log service relies on: ASCII case mapping (str.upper,
    str.lower), whitespace stripping (str.strip), substring containment (`in`),
    decimal rendering of integers (f-string `{n}`) and "\n".join. */
module Text {

  // ---------------------------------------------------------------- case

  function UpperChar(c: char): char
  {
    if 'a' <= c <= 'z' then (c as int - 32) as char else c
  }

  function LowerChar(c: char): char
  {
    if 'A' <= c <= 'Z' then (c as int + 32) as char else c
  }

  /** str.upper restricted to ASCII letters: maps character by character. */
  function Upper(s: string): (r: string)
    ensures |r| == |s|
    ensures forall i :: 0 <= i < |s| ==> r[i] == UpperChar(s[i])
  {
    if s == [] then [] else [UpperChar(s[0])] + Upper(s[1..])
  }

  /** str.lower restricted to ASCII letters. */
  function Lower(s: string): (r: string)
    ensures |r| == |s|
    ensures forall i :: 0 <= i < |s| ==> r[i] == LowerChar(s[i])
  {
    if s == [] then [] else [LowerChar(s[0])] + Lower(s[1..])
  }

  predicate IsUpperCase(s: string)
  {
    forall i :: 0 <= i < |s| ==> !('a' <= s[i] <= 'z')
  }

  /** Upper-casing leaves no lower-case letter behind and is idempotent. */
  lemma UpperIsUpperCase(s: string)
    ensures IsUpperCase(Upper(s))
    ensures Upper(Upper(s)) == Upper(s)
  {
    assert forall i :: 0 <= i < |s| ==> UpperChar(UpperChar(s[i])) == UpperChar(s[i]);
  }

  // ---------------------------------------------------------------- strip

  /** The ASCII characters for which Python's str.isspace holds:
      tab, line feed, vertical tab, form feed, carriage return,
      the four information separators 0x1C-0x1F, and space. */
  predicate IsSpace(c: char)
  {
    '\t' <= c <= '\r' || '\U{1C}' <= c <= ' '
  }

  /** The left half of str.strip(): s without its leading whitespace. */
  function StripLeft(s: string): string
  {
    if s != [] && IsSpace(s[0]) then StripLeft(s[1..]) else s
  }

  /** The right half of str.strip(): s without its trailing whitespace. */
  function StripRight(s: string): string
  {
    if s != [] && IsSpace(s[|s| - 1]) then StripRight(s[..|s| - 1]) else s
  }

  /** str.strip(). */
  function Strip(s: string): string
  {
    StripRight(StripLeft(s))
  }

  /** StripLeft removes a prefix of whitespace and stops at a non-whitespace character. */
  lemma {:induction false} StripLeftRemovesSpaces(s: string)
    ensures var r := StripLeft(s);
      |r| <= |s| && r == s[|s| - |r|..]
      && (forall i :: 0 <= i < |s| - |r| ==> IsSpace(s[i]))
      && (r != [] ==> !IsSpace(r[0]))
  {
    if s != [] && IsSpace(s[0]) {
      StripLeftRemovesSpaces(s[1..]);
      var r := StripLeft(s[1..]);
      assert s[|s| - |r|..] == s[1..][|s| - 1 - |r|..];
      forall i | 0 < i < |s| - |r|
        ensures IsSpace(s[i])
      {
        assert s[i] == s[1..][i - 1];
      }
    }
  }

  /** StripRight removes a suffix of whitespace and stops at a non-whitespace character. */
  lemma {:induction false} StripRightRemovesSpaces(s: string)
    ensures var r := StripRight(s);
      |r| <= |s| && r == s[..|r|]
      && (forall i :: |r| <= i < |s| ==> IsSpace(s[i]))
      && (r != [] ==> !IsSpace(r[|r| - 1]))
  {
    if s != [] && IsSpace(s[|s| - 1]) {
      StripRightRemovesSpaces(s[..|s| - 1]);
      var r := StripRight(s[..|s| - 1]);
      assert s[..|r|] == s[..|s| - 1][..|r|];
      forall i | |r| <= i < |s| - 1
        ensures IsSpace(s[i])
      {
        assert s[i] == s[..|s| - 1][i];
      }
    }
  }

  /** The stripped string is the slice of s between its leading and its
      trailing whitespace, and neither of its ends is whitespace. */
  lemma StripIsTrimmedSlice(s: string)
    ensures var lo, r := |s| - |StripLeft(s)|, Strip(s);
      0 <= lo && lo + |r| <= |s|
      && r == s[lo..lo + |r|]
      && (forall i :: 0 <= i < lo ==> IsSpace(s[i]))
      && (forall i :: lo + |r| <= i < |s| ==> IsSpace(s[i]))
      && (r != [] ==> !IsSpace(r[0]) && !IsSpace(r[|r| - 1]))
  {
    var left := StripLeft(s);
    StripLeftRemovesSpaces(s);
    var lo := |s| - |left|;
    var r := StripRight(left);
    StripRightRemovesSpaces(left);
    assert r == left[..|r|] == s[lo..lo + |r|];
    forall i | lo + |r| <= i < |s|
      ensures IsSpace(s[i])
    {
      assert s[i] == left[i - lo];
    }
    if r != [] {
      assert r[0] == left[0];
    }
  }

  // ---------------------------------------------------------------- substring

  /** Python's `needle in hay` on strings. */
  predicate Contains(hay: string, needle: string)
    decreases |hay|
  {
    if |needle| > |hay| then false
    else hay[..|needle|] == needle || (hay != [] && Contains(hay[1..], needle))
  }

  predicate OccursAt(hay: string, needle: string, i: int)
  {
    0 <= i && i + |needle| <= |hay| && hay[i..i + |needle|] == needle
  }

  /** Containment means an occurrence at some position. */
  lemma {:induction false} ContainsIffOccurs(hay: string, needle: string)
    ensures Contains(hay, needle) <==> exists i :: OccursAt(hay, needle, i)
    decreases |hay|
  {
    if |needle| <= |hay| {
      if hay[..|needle|] == needle {
        assert OccursAt(hay, needle, 0);
      } else {
        assert hay != [];
        ContainsIffOccurs(hay[1..], needle);
        if exists i :: OccursAt(hay[1..], needle, i) {
          var i :| OccursAt(hay[1..], needle, i);
          assert hay[1..][i..i + |needle|] == hay[i + 1..i + 1 + |needle|];
          assert OccursAt(hay, needle, i + 1);
        }
        if exists i :: OccursAt(hay, needle, i) {
          var i :| OccursAt(hay, needle, i);
          assert i != 0;
          assert hay[1..][i - 1..i - 1 + |needle|] == hay[i..i + |needle|];
          assert OccursAt(hay[1..], needle, i - 1);
        }
      }
    }
  }

  /** Leading whitespace holds no occurrence of a needle that starts with a
      non-whitespace character. */
  lemma {:induction false} StripLeftKeepsContains(s: string, needle: string)
    requires needle != [] && !IsSpace(needle[0])
    ensures Contains(StripLeft(s), needle) == Contains(s, needle)
  {
    if s != [] && IsSpace(s[0]) {
      assert s[0] != needle[0];
      assert |needle| <= |s| ==> s[..|needle|] != needle;
      StripLeftKeepsContains(s[1..], needle);
    }
  }

  /** Dropping a final whitespace character loses no occurrence of a needle
      that ends with a non-whitespace character. */
  lemma {:induction false} DropFinalSpaceKeepsContains(s: string, needle: string)
    requires needle != [] && !IsSpace(needle[|needle| - 1])
    requires s != [] && IsSpace(s[|s| - 1])
    ensures Contains(s[..|s| - 1], needle) == Contains(s, needle)
  {
    var p := s[..|s| - 1];
    if |needle| < |s| {
      assert p[..|needle|] == s[..|needle|];
      assert p[1..] == s[1..][..|s| - 2];
      DropFinalSpaceKeepsContains(s[1..], needle);
    } else {
      assert |needle| == |s| ==> s[..|needle|][|needle| - 1] == s[|s| - 1];
    }
  }

  /** Trailing whitespace holds no occurrence of a needle that ends with a
      non-whitespace character. */
  lemma {:induction false} StripRightKeepsContains(s: string, needle: string)
    requires needle != [] && !IsSpace(needle[|needle| - 1])
    ensures Contains(StripRight(s), needle) == Contains(s, needle)
  {
    if s != [] && IsSpace(s[|s| - 1]) {
      StripRightKeepsContains(s[..|s| - 1], needle);
      DropFinalSpaceKeepsContains(s, needle);
    }
  }

  /** Stripping whitespace cannot create or destroy an occurrence of a
      non-empty needle whose ends are not whitespace. */
  lemma StripKeepsContains(s: string, needle: string)
    requires needle != [] && !IsSpace(needle[0]) && !IsSpace(needle[|needle| - 1])
    ensures Contains(Strip(s), needle) == Contains(s, needle)
  {
    StripRightKeepsContains(StripLeft(s), needle);
    StripLeftKeepsContains(s, needle);
  }

  /** Case mapping does not change which characters are whitespace. */
  lemma UpperKeepsSpaces(s: string)
    ensures forall i :: 0 <= i < |s| ==> IsSpace(Upper(s)[i]) == IsSpace(s[i])
  {
  }

  lemma {:induction false} UpperOfStripLeft(s: string)
    ensures Upper(StripLeft(s)) == StripLeft(Upper(s))
  {
    if s != [] {
      UpperKeepsSpaces(s);
      assert Upper(s)[1..] == Upper(s[1..]);
      UpperOfStripLeft(s[1..]);
    }
  }

  lemma {:induction false} UpperOfStripRight(s: string)
    ensures Upper(StripRight(s)) == StripRight(Upper(s))
  {
    if s != [] {
      UpperKeepsSpaces(s);
      assert Upper(s)[..|s| - 1] == Upper(s[..|s| - 1]);
      UpperOfStripRight(s[..|s| - 1]);
    }
  }

  /** Upper-casing and stripping commute. */
  lemma UpperOfStrip(s: string)
    ensures Upper(Strip(s)) == Strip(Upper(s))
  {
    UpperOfStripLeft(s);
    UpperOfStripRight(StripLeft(s));
  }

  // ---------------------------------------------------------------- decimal

  function DigitChar(d: nat): char
    requires d < 10
  {
    ('0' as int + d) as char
  }

  predicate IsDigit(c: char)
  {
    '0' <= c <= '9'
  }

  /** Decimal rendering of a natural number, as Python's str(int). */
  function NatToString(n: nat): (r: string)
    ensures r != []
    ensures forall i :: 0 <= i < |r| ==> IsDigit(r[i])
  {
    if n < 10 then [DigitChar(n)] else NatToString(n / 10) + [DigitChar(n % 10)]
  }

  /** Python's str(int), with a leading minus sign for negative numbers. */
  function IntToString(i: int): string
  {
    if i < 0 then "-" + NatToString(-i) else NatToString(i)
  }

  /** The number a string of decimal digits denotes. */
  function DecimalValue(s: string): nat
    requires forall i :: 0 <= i < |s| ==> IsDigit(s[i])
  {
    if s == [] then 0
    else
      assert IsDigit(s[|s| - 1]);
      10 * DecimalValue(s[..|s| - 1]) + (s[|s| - 1] as int - '0' as int)
  }

  /** Rendering a number in decimal loses nothing: reading it back gives the number. */
  lemma {:induction false} DecimalRoundTrip(n: nat)
    ensures DecimalValue(NatToString(n)) == n
  {
    if n >= 10 {
      DecimalRoundTrip(n / 10);
      var s := NatToString(n);
      assert s[..|s| - 1] == NatToString(n / 10);
    }
  }

  /** Distinct numbers render differently. */
  lemma NatToStringInjective(m: nat, n: nat)
    requires NatToString(m) == NatToString(n)
    ensures m == n
  {
    DecimalRoundTrip(m);
    DecimalRoundTrip(n);
  }

  // ---------------------------------------------------------------- join

  /** "\n".join(lines). */
  function JoinLines(lines: seq<string>): string
  {
    if lines == [] then ""
    else if |lines| == 1 then lines[0]
    else lines[0] + "\n" + JoinLines(lines[1..])
  }

  /** Offset in JoinLines(lines) at which line i begins. */
  function LineStart(lines: seq<string>, i: nat): nat
    requires i <= |lines|
  {
    if i == 0 then 0 else |lines[0]| + 1 + LineStart(lines[1..], i - 1)
  }

  /** Line i of the joined text sits at LineStart(lines, i), and a newline
      separates it from line i + 1; so the lines appear once each, in order. */
  lemma {:induction false} JoinLinesAt(lines: seq<string>, i: nat)
    requires i < |lines|
    ensures LineStart(lines, i) + |lines[i]| <= |JoinLines(lines)|
    ensures JoinLines(lines)[LineStart(lines, i)..LineStart(lines, i) + |lines[i]|] == lines[i]
    ensures i + 1 < |lines| ==> LineStart(lines, i) + |lines[i]| < |JoinLines(lines)|
    ensures i + 1 < |lines| ==> JoinLines(lines)[LineStart(lines, i) + |lines[i]|] == '\n'
    ensures i + 1 < |lines| ==> LineStart(lines, i + 1) == LineStart(lines, i) + |lines[i]| + 1
  {
    if i == 0 {
      if |lines| > 1 {
        assert LineStart(lines, 1) == |lines[0]| + 1 + LineStart(lines[1..], 0);
      }
    } else {
      var rest := lines[1..];
      JoinLinesAt(rest, i - 1);
      var head := lines[0] + "\n";
      assert JoinLines(lines) == head + JoinLines(rest);
      var k := LineStart(rest, i - 1);
      assert LineStart(lines, i) == |head| + k;
      assert (head + JoinLines(rest))[|head| + k..|head| + k + |lines[i]|]
          == JoinLines(rest)[k..k + |lines[i]|];
      if i + 1 < |lines| {
        assert LineStart(lines, i + 1) == |lines[0]| + 1 + LineStart(rest, i);
      }
    }
  }

  /** The joined text holds every character of every line plus one newline between each pair. */
  lemma {:induction false} JoinLinesLength(lines: seq<string>)
    requires lines != []
    ensures |JoinLines(lines)| == LineStart(lines, |lines| - 1) + |lines[|lines| - 1]|
  {
    if |lines| > 1 {
      JoinLinesLength(lines[1..]);
    }
  }
}
