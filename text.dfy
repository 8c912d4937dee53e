/**
 * String helpers shared by the Python populator and the browser script:
 * whitespace trimming, ASCII case mapping, the two ways the sources split a
 * string into words, substring search, the `^[A-Z]\.\s*` code-prefix
 * rewrite and decimal rendering of integers.
 */
module Text {

  /** The six ASCII whitespace characters that Python's `str.strip` and
      `str.split()` and JavaScript's `trim` and `\s` all treat as blank.
      Python also counts `\x1c`-`\x1f`, `\x85` and the Unicode spaces;
      JavaScript counts the Unicode spaces but not `\x1c`-`\x1f` or `\x85`.
      Those extra characters are not modelled. */
  predicate IsSpace(c: char) {
    // the space, then tab, line feed, vertical tab, form feed and carriage return
    c == ' ' || '\t' <= c <= '\r'
  }

  predicate IsBlank(s: string) {
    forall i :: 0 <= i < |s| ==> IsSpace(s[i])
  }

  /** A non-empty string without whitespace: what a word of `str.split()` is. */
  predicate IsWord(w: string) {
    w != [] && forall i :: 0 <= i < |w| ==> !IsSpace(w[i])
  }

  /** Leading whitespace removed. */
  function TrimStart(s: string): (r: string)
    ensures |r| <= |s| && r == s[|s| - |r|..]
    ensures IsBlank(s[..|s| - |r|])
    ensures r == [] || !IsSpace(r[0])
  {
    if s != [] && IsSpace(s[0]) then
      var r := TrimStart(s[1..]);
      var cut := |s| - |r|;
      assert s[1..][cut - 1..] == s[cut..];
      assert IsBlank(s[..cut]) by {
        var tail := s[1..];
        forall i | 0 < i < cut ensures IsSpace(s[i]) {
          assert s[i] == tail[..cut - 1][i - 1];
        }
      }
      r
    else s
  }

  /** Trailing whitespace removed. */
  function TrimEnd(s: string): (r: string)
    ensures |r| <= |s| && r == s[..|r|]
    ensures IsBlank(s[|r|..])
    ensures r == [] || !IsSpace(r[|r| - 1])
  {
    if s != [] && IsSpace(s[|s| - 1]) then
      var r := TrimEnd(s[..|s| - 1]);
      assert s[..|s| - 1][..|r|] == s[..|r|];
      assert IsBlank(s[|r|..]) by {
        var init := s[..|s| - 1];
        forall i | |r| <= i < |s| ensures IsSpace(s[i]) {
          if i < |s| - 1 {
            assert s[i] == init[|r|..][i - |r|];
          }
        }
      }
      r
    else s
  }

  /** Python's `str.strip()` and JavaScript's `String.prototype.trim()`. */
  function Strip(s: string): (r: string)
    ensures |r| <= |s|
    ensures r == [] || (!IsSpace(r[0]) && !IsSpace(r[|r| - 1]))
  {
    TrimEnd(TrimStart(s))
  }

  /** The stripped string is the part of `s` after its leading blanks and
      before its trailing ones. */
  lemma StripIsInfix(s: string)
    ensures var r, i := Strip(s), |s| - |TrimStart(s)|;
      i + |r| <= |s| && r == s[i..i + |r|] && IsBlank(s[..i]) && IsBlank(s[i + |r|..])
  {
    var t := TrimStart(s);
    var r := TrimEnd(t);
    var i := |s| - |t|;
    assert s[i + |r|..] == t[|r|..];
  }

  /** A stripped string is empty exactly when the original was blank. */
  lemma StripEmptyIffBlank(s: string)
    ensures Strip(s) == [] <==> IsBlank(s)
  {
    var r := Strip(s);
    var i := |s| - |TrimStart(s)|;
    StripIsInfix(s);
    if r == [] {
      forall k | 0 <= k < |s| ensures IsSpace(s[k]) {
        assert s[k] == s[..i][k];
      }
    } else {
      assert r[0] == s[i];
    }
  }

  function UpperChar(c: char): char {
    if 'a' <= c <= 'z' then (c as int - 32) as char else c
  }

  function LowerChar(c: char): char {
    if 'A' <= c <= 'Z' then (c as int + 32) as char else c
  }

  /** `str.upper()` / `toUpperCase()` on the ASCII letters. */
  function Upper(s: string): (r: string)
    ensures |r| == |s| && forall i :: 0 <= i < |s| ==> r[i] == UpperChar(s[i])
  {
    seq(|s|, i requires 0 <= i < |s| => UpperChar(s[i]))
  }

  /** `str.lower()` / `toLowerCase()` on the ASCII letters. */
  function Lower(s: string): (r: string)
    ensures |r| == |s| && forall i :: 0 <= i < |s| ==> r[i] == LowerChar(s[i])
  {
    seq(|s|, i requires 0 <= i < |s| => LowerChar(s[i]))
  }

  /** Every string of a list lower-cased, as `[kw.lower() for kw in ws]`. */
  function LowerEach(ws: seq<string>): (r: seq<string>)
    ensures |r| == |ws| && forall i :: 0 <= i < |ws| ==> r[i] == Lower(ws[i])
  {
    seq(|ws|, i requires 0 <= i < |ws| => Lower(ws[i]))
  }

  /** Index of the first whitespace character, or the length. */
  function FirstSpace(s: string): (k: nat)
    ensures k <= |s|
    ensures k < |s| ==> IsSpace(s[k])
    ensures forall i :: 0 <= i < k ==> !IsSpace(s[i])
  {
    if s == [] || IsSpace(s[0]) then 0 else 1 + FirstSpace(s[1..])
  }

  /** Python's `str.split()` without a separator: the maximal runs of
      non-whitespace characters, in order: every piece is non-empty and
      holds no whitespace. */
  function Words(s: string): (ws: seq<string>)
    ensures forall k :: 0 <= k < |ws| ==> IsWord(ws[k])
    decreases |s|
  {
    var t := TrimStart(s);
    if t == [] then []
    else
      var k := FirstSpace(t);
      FirstRunIsWord(t);
      ConsWords(t[..k], Words(t[k..]));
      [t[..k]] + Words(t[k..])
  }

  /** `split()` finds no word exactly in a blank string. */
  lemma WordsEmptyIffBlank(s: string)
    ensures Words(s) == [] <==> IsBlank(s)
  {
    var t := TrimStart(s);
    if t == [] {
      assert s[..|s|] == s;
    } else {
      assert s[|s| - |t|] == t[0];
    }
  }

  /** The run before the first whitespace of a string that does not start
      with whitespace is a word. */
  lemma FirstRunIsWord(t: string)
    requires t != [] && !IsSpace(t[0])
    ensures IsWord(t[..FirstSpace(t)])
  {
    var w := t[..FirstSpace(t)];
    forall i | 0 <= i < |w| ensures !IsSpace(w[i]) {
      assert w[i] == t[i];
    }
  }

  /** A word in front of a list of words gives a list of words. */
  lemma ConsWords(w: string, rest: seq<string>)
    requires IsWord(w) && forall k :: 0 <= k < |rest| ==> IsWord(rest[k])
    ensures forall k :: 0 <= k < |[w] + rest| ==> IsWord(([w] + rest)[k])
  {
    forall m | 0 <= m < |[w] + rest| ensures IsWord(([w] + rest)[m]) {
      if m > 0 {
        assert ([w] + rest)[m] == rest[m - 1];
      }
    }
  }

  /** JavaScript's `s.split(/\s+/ )`: the pieces between maximal whitespace
      runs, keeping an empty first piece when `s` starts with whitespace and
      an empty last piece when it ends with whitespace. */
  function RegexSplit(s: string): (parts: seq<string>)
    ensures |parts| >= 1
    ensures forall k :: 0 <= k < |parts| ==> parts[k] == [] || IsWord(parts[k])
    ensures parts[0] == [] <==> s == [] || IsSpace(s[0])
    ensures |parts| == 1 <==> forall i :: 0 <= i < |s| ==> !IsSpace(s[i])
    decreases |s|
  {
    var k := FirstSpace(s);
    if k == |s| then [s] else [s[..k]] + RegexSplit(TrimStart(s[k..]))
  }

  /** On a string without leading or trailing whitespace the regular-expression
      split of the browser script and Python's `split()` give the same words. */
  lemma {:induction false} RegexSplitAgreesWithWords(s: string)
    requires s != [] && !IsSpace(s[0]) && !IsSpace(s[|s| - 1])
    ensures RegexSplit(s) == Words(s)
    decreases |s|
  {
    var k := FirstSpace(s);
    if k < |s| {
      var t := TrimStart(s[k..]);
      WordsStep(s);
      RegexSplitStep(s);
      TrimmedTailKeepsLast(s, k);
      RegexSplitAgreesWithWords(t);
    } else {
      WordsOfUntrimmed(s);
      assert s[..k] == s && s[k..] == [];
    }
  }

  /** After its first piece, `split(/\s+/)` goes on after the whitespace run that follows it. */
  lemma RegexSplitStep(s: string)
    requires FirstSpace(s) < |s|
    ensures RegexSplit(s) == [s[..FirstSpace(s)]] + RegexSplit(TrimStart(s[FirstSpace(s)..]))
  {
  }

  /** After its first word, `Words` goes on after the whitespace run that follows it. */
  lemma WordsStep(s: string)
    requires s != [] && !IsSpace(s[0]) && FirstSpace(s) < |s|
    ensures Words(s) == [s[..FirstSpace(s)]] + Words(TrimStart(s[FirstSpace(s)..]))
  {
    WordsOfUntrimmed(s);
    WordsSkipsLeadingSpace(s[FirstSpace(s)..]);
  }

  /** One unfolding of `Words` on a string that does not start with whitespace. */
  lemma WordsOfUntrimmed(s: string)
    requires s != [] && !IsSpace(s[0])
    ensures Words(s) == [s[..FirstSpace(s)]] + Words(s[FirstSpace(s)..])
  {
    assert TrimStart(s) == s;
  }

  /** Trimming the rest of a string after an inner space keeps its last,
      non-blank character. */
  lemma TrimmedTailKeepsLast(s: string, k: nat)
    requires k < |s| && !IsSpace(s[|s| - 1])
    ensures TrimStart(s[k..]) != [] && !IsSpace(TrimStart(s[k..])[|TrimStart(s[k..])| - 1])
  {
    var u := s[k..];
    var t := TrimStart(u);
    assert u[|u| - 1] == s[|s| - 1];
    assert u[..|u|] == u;
  }

  /** Leading whitespace does not change the words. */
  lemma WordsSkipsLeadingSpace(s: string)
    ensures Words(TrimStart(s)) == Words(s)
  {
    var t := TrimStart(s);
    assert TrimStart(t) == t;
  }

  /** A string that starts with whitespace yields an empty first piece under
      `split(/\s+/)`, and the empty string is contained in every string. */
  lemma LeadingSpaceGivesEmptyKeyword(s: string, hay: string)
    requires s != [] && IsSpace(s[0])
    ensures RegexSplit(s)[0] == "" && Contains(hay, RegexSplit(s)[0])
  {
    assert OccursAt(hay, "", 0);
  }

  /** Case mapping leaves whitespace where it was. */
  lemma LowerKeepsSpaces(c: char)
    ensures IsSpace(LowerChar(c)) == IsSpace(c)
  {
  }

  lemma {:induction false} TrimStartLower(s: string)
    ensures TrimStart(Lower(s)) == Lower(TrimStart(s))
    decreases |s|
  {
    if s != [] {
      var low := Lower(s);
      LowerKeepsSpaces(s[0]);
      assert IsSpace(low[0]) == IsSpace(s[0]);
      if IsSpace(s[0]) {
        assert low[1..] == Lower(s[1..]);
        TrimStartLower(s[1..]);
        assert TrimStart(low) == TrimStart(low[1..]);
      } else {
        assert TrimStart(low) == low;
      }
    }
  }

  lemma FirstSpaceLower(s: string)
    ensures FirstSpace(Lower(s)) == FirstSpace(s)
    decreases |s|
  {
    if s != [] {
      LowerKeepsSpaces(s[0]);
      if !IsSpace(s[0]) {
        assert Lower(s)[1..] == Lower(s[1..]);
        FirstSpaceLower(s[1..]);
      }
    }
  }

  lemma LowerSlices(t: string, k: nat)
    requires k <= |t|
    ensures Lower(t)[..k] == Lower(t[..k]) && Lower(t)[k..] == Lower(t[k..])
  {
  }

  lemma LowerEachCons(w: string, ws: seq<string>)
    ensures LowerEach([w] + ws) == [Lower(w)] + LowerEach(ws)
  {
  }

  /** Lower-casing the whole string and then splitting gives the lower-cased
      words: the order of `lower()` and `split()` does not matter. */
  lemma {:induction false} WordsLower(s: string)
    ensures Words(Lower(s)) == LowerEach(Words(s))
    decreases |s|
  {
    var t := TrimStart(s);
    TrimStartLower(s);
    if t != [] {
      var k := FirstSpace(t);
      FirstSpaceLower(t);
      LowerSlices(t, k);
      WordsLower(t[k..]);
      LowerEachCons(t[..k], Words(t[k..]));
    }
  }

  /** `needle in hay` (Python) and `hay.includes(needle)` (JavaScript). */
  predicate Contains(hay: string, needle: string) {
    exists i | 0 <= i <= |hay| - |needle| :: OccursAt(hay, needle, i)
  }

  predicate OccursAt(hay: string, needle: string, i: int) {
    0 <= i <= |hay| - |needle| && hay[i..i + |needle|] == needle
  }

  // The regular-expression rewrite both sources apply to an item title
  // (`^[A-Z]` then a literal dot then `\s*`, first occurrence only): a leading
  // capital letter and dot, with the whitespace after them, removed.
  function StripCodePrefix(s: string): string {
    if |s| >= 2 && 'A' <= s[0] <= 'Z' && s[1] == '.' then TrimStart(s[2..]) else s
  }

  predicate IsDigit(c: char) {
    '0' <= c <= '9'
  }

  function DigitChar(d: nat): (c: char)
    requires d < 10
    ensures IsDigit(c) && c as int - '0' as int == d
  {
    ('0' as int + d) as char
  }

  /** Decimal rendering of a natural number, as `str(n)` / `n.toString()`. */
  function NatToString(n: nat): (s: string)
    ensures s != [] && forall i :: 0 <= i < |s| ==> IsDigit(s[i])
    ensures s[0] == '0' <==> n == 0
    decreases n
  {
    if n < 10 then [DigitChar(n)] else NatToString(n / 10) + [DigitChar(n % 10)]
  }

  /** Decimal rendering of an integer, with a leading '-' for negatives, as `str(i)`. */
  function IntToString(i: int): (s: string)
    ensures s != []
    ensures s[0] == '-' <==> i < 0
  {
    if i < 0 then "-" + NatToString(-i) else NatToString(i)
  }

  /** The number a string of decimal digits denotes. */
  function DigitsValue(s: string): nat
    requires forall i :: 0 <= i < |s| ==> IsDigit(s[i])
  {
    if s == [] then 0
    else
      assert IsDigit(s[|s| - 1]);
      DigitsValue(s[..|s| - 1]) * 10 + (s[|s| - 1] as int - '0' as int)
  }

  /** The number an optionally signed decimal string denotes (`int(s)`). */
  function IntValue(s: string): int
    requires s != []
    requires s[0] == '-' ==> |s| > 1 && forall i :: 1 <= i < |s| ==> IsDigit(s[i])
    requires s[0] != '-' ==> forall i :: 0 <= i < |s| ==> IsDigit(s[i])
  {
    if s[0] == '-' then -(DigitsValue(s[1..]) as int) else DigitsValue(s)
  }

  /** Reading back the decimal rendering of a natural number gives the number. */
  lemma {:induction false} NatToStringRoundTrip(n: nat)
    ensures DigitsValue(NatToString(n)) == n
    decreases n
  {
    if n >= 10 {
      var s := NatToString(n);
      NatToStringRoundTrip(n / 10);
      assert s[..|s| - 1] == NatToString(n / 10);
    }
  }

  /** Reading back the decimal rendering of an integer gives the integer. */
  lemma IntToStringRoundTrip(i: int)
    ensures IntValue(IntToString(i)) == i
  {
    if i < 0 {
      NatToStringRoundTrip(-i);
      assert IntToString(i)[1..] == NatToString(-i);
    } else {
      NatToStringRoundTrip(i);
    }
  }
}
