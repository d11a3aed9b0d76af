/** The JavaScript string operations the core relies on: whitespace, `trim`, `split` on one
    character and on whitespace runs, `join`, decimal rendering of integers and `padStart`. */
module Text {
  import opened Util

  /** ECMAScript WhiteSpace and LineTerminator characters: what `String.prototype.trim`
      removes and what the regular-expression class `\s` matches. */
  predicate IsWhitespace(c: char) {
    c in WhitespaceChars
  }

  const WhitespaceChars: set<char> := {
    ' ', '\t', '\n', '\r', '\U{0B}', '\U{0C}', '\U{A0}', '\U{1680}',
    '\U{2000}', '\U{2001}', '\U{2002}', '\U{2003}', '\U{2004}', '\U{2005}',
    '\U{2006}', '\U{2007}', '\U{2008}', '\U{2009}', '\U{200A}',
    '\U{2028}', '\U{2029}', '\U{202F}', '\U{205F}', '\U{3000}', '\U{FEFF}'
  }

  predicate IsBlank(s: string) {
    forall i | 0 <= i < |s| :: IsWhitespace(s[i])
  }

  /** Every character of `s` at a position in `lo..hi` is whitespace. */
  predicate BlankBetween(s: string, lo: int, hi: int) {
    forall i | 0 <= lo <= i < hi <= |s| :: IsWhitespace(s[i])
  }

  predicate NoWhitespace(s: string) {
    forall i | 0 <= i < |s| :: !IsWhitespace(s[i])
  }

  /** The position of the first non-whitespace character of `s` at or after `i`, or `|s|`. */
  function SkipWhitespace(s: string, i: nat): (k: nat)
    requires i <= |s|
    ensures i <= k <= |s| && BlankBetween(s, i, k)
    ensures k < |s| ==> !IsWhitespace(s[k])
    decreases |s| - i
  {
    if i == |s| || !IsWhitespace(s[i]) then i else SkipWhitespace(s, i + 1)
  }

  /** The position just past the last non-whitespace character of `s` at or after `lo`,
      or `lo` when there is none. */
  function EndOfText(s: string, lo: nat, j: nat): (k: nat)
    requires lo <= j <= |s|
    ensures lo <= k <= j && BlankBetween(s, k, j)
    ensures k > lo ==> !IsWhitespace(s[k - 1])
    decreases j
  {
    if j == lo || !IsWhitespace(s[j - 1]) then j else EndOfText(s, lo, j - 1)
  }

  /** `s.trim()`: `s` without its leading and trailing whitespace. The result is the piece
      `s[k..k + |r|]` of `s` with only whitespace around it; it is empty exactly when `s` is
      blank and otherwise starts and ends with a non-whitespace character. */
  function Trim(s: string): (r: string)
    ensures |r| <= |s|
    ensures r == [] <==> IsBlank(s)
    ensures r != [] ==> !IsWhitespace(r[0]) && !IsWhitespace(r[|r| - 1])
    ensures var k := SkipWhitespace(s, 0);
      && k + |r| <= |s| && r == s[k..k + |r|]
      && BlankBetween(s, 0, k) && BlankBetween(s, k + |r|, |s|)
  {
    var i := SkipWhitespace(s, 0);
    var j := EndOfText(s, i, |s|);
    assert IsBlank(s) ==> i == |s|;
    s[i..j]
  }

  lemma TrimIdempotent(s: string)
    ensures Trim(Trim(s)) == Trim(s)
  {
  }

  /** A string with no whitespace at either end is its own trim. */
  lemma TrimOfTrimmed(s: string)
    requires s == [] || (!IsWhitespace(s[0]) && !IsWhitespace(s[|s| - 1]))
    ensures Trim(s) == s
  {
  }

  // ---------------------------------------------------------------------------
  // split / join on a single separator character

  /** `s.split(sep)`: the maximal pieces of `s` between occurrences of `sep`. There is
      always at least one piece ("".split(sep) is [""]) and no piece holds `sep`. */
  function Split(s: string, sep: char): (r: seq<string>)
    ensures |r| >= 1
    ensures forall i | 0 <= i < |r| :: sep !in r[i]
    decreases |s|
  {
    if s == [] then [[]]
    else
      var rest := Split(s[1..], sep);
      if s[0] == sep then [[]] + rest
      else [[s[0]] + rest[0]] + rest[1..]
  }

  /** `xs.join(sep)`; the join of no pieces is the empty string. */
  function Join(xs: seq<string>, sep: char): string {
    if xs == [] then []
    else if |xs| == 1 then xs[0]
    else xs[0] + [sep] + Join(xs[1..], sep)
  }

  /** Joining the pieces with the separator gives back the original string. */
  lemma {:induction false} JoinSplit(s: string, sep: char)
    ensures Join(Split(s, sep), sep) == s
    decreases |s|
  {
    if s != [] {
      JoinSplit(s[1..], sep);
      var rest := Split(s[1..], sep);
      if s[0] == sep {
        assert ([[]] + rest)[1..] == rest;
      } else if |rest| > 1 {
        var r := [[s[0]] + rest[0]] + rest[1..];
        assert r[1..] == rest[1..];
        assert Join(rest, sep) == rest[0] + [sep] + Join(rest[1..], sep);
      }
    }
  }

  /** Splitting a string with no separator in it gives that string alone. */
  lemma {:induction false} SplitNoSeparator(s: string, sep: char)
    requires sep !in s
    ensures Split(s, sep) == [s]
    decreases |s|
  {
    if s != [] {
      SplitNoSeparator(s[1..], sep);
      assert [s[0]] + s[1..] == s;
    }
  }

  /** A separator-free first piece comes off the front of a split. */
  lemma {:induction false} SplitCons(a: string, sep: char, b: string)
    requires sep !in a
    ensures Split(a + [sep] + b, sep) == [a] + Split(b, sep)
    decreases |a|
  {
    if a == [] {
      assert a + [sep] + b == [sep] + b;
      assert ([sep] + b)[1..] == b;
    } else {
      var s := a + [sep] + b;
      assert s[0] == a[0] && s[1..] == a[1..] + [sep] + b;
      SplitCons(a[1..], sep, b);
      assert [a[0]] + a[1..] == a;
    }
  }

  /** Splitting a join of separator-free pieces gives back the pieces. */
  lemma {:induction false} SplitJoin(xs: seq<string>, sep: char)
    requires |xs| >= 1
    requires forall i | 0 <= i < |xs| :: sep !in xs[i]
    ensures Split(Join(xs, sep), sep) == xs
    decreases |xs|
  {
    if |xs| == 1 {
      SplitNoSeparator(xs[0], sep);
    } else {
      SplitJoin(xs[1..], sep);
      SplitCons(xs[0], sep, Join(xs[1..], sep));
      assert [xs[0]] + xs[1..] == xs;
    }
  }

  // ---------------------------------------------------------------------------
  // split on whitespace runs: `s.split(/\s+/)`

  /** `s.split(/\s+/)`: the pieces of `s` between maximal runs of whitespace. */
  function SplitWhitespace(s: string): (r: seq<string>)
    ensures |r| >= 1
    ensures forall i | 0 <= i < |r| :: NoWhitespace(r[i])
    decreases |s|
  {
    if s == [] then [[]]
    else if IsWhitespace(s[0]) then [[]] + SplitWhitespace(s[SkipWhitespace(s, 0)..])
    else
      var rest := SplitWhitespace(s[1..]);
      [[s[0]] + rest[0]] + rest[1..]
  }

  function Concat(xs: seq<string>): string {
    if xs == [] then [] else xs[0] + Concat(xs[1..])
  }

  /** `s` with every whitespace character removed. */
  function RemoveWhitespace(s: string): string {
    if s == [] then [] else (if IsWhitespace(s[0]) then [] else [s[0]]) + RemoveWhitespace(s[1..])
  }

  /** A blank prefix contributes nothing to `RemoveWhitespace`. */
  lemma {:induction false} RemoveWhitespaceBlankPrefix(s: string, k: nat)
    requires k <= |s| && BlankBetween(s, 0, k)
    ensures RemoveWhitespace(s) == RemoveWhitespace(s[k..])
    decreases k
  {
    if k > 0 {
      assert BlankBetween(s[1..], 0, k - 1) by {
        forall i | 0 <= i < k - 1 ensures IsWhitespace(s[1..][i]) {
          assert s[1..][i] == s[i + 1];
        }
      }
      RemoveWhitespaceBlankPrefix(s[1..], k - 1);
      assert s[1..][k - 1..] == s[k..];
    }
  }

  /** The whitespace-run pieces of `s`, put back together, are exactly the non-whitespace
      characters of `s`: no character is lost, none invented, order kept. */
  lemma {:induction false} SplitWhitespaceKeepsText(s: string)
    ensures Concat(SplitWhitespace(s)) == RemoveWhitespace(s)
    decreases |s|
  {
    if s != [] {
      if IsWhitespace(s[0]) {
        var k := SkipWhitespace(s, 0);
        var d := s[k..];
        SplitWhitespaceKeepsText(d);
        RemoveWhitespaceBlankPrefix(s, k);
        assert ([[]] + SplitWhitespace(d))[1..] == SplitWhitespace(d);
      } else {
        SplitWhitespaceKeepsText(s[1..]);
        var rest := SplitWhitespace(s[1..]);
        var r := [[s[0]] + rest[0]] + rest[1..];
        assert r[1..] == rest[1..];
        assert Concat(rest) == rest[0] + Concat(rest[1..]);
      }
    }
  }

  /** For a string that starts and ends with a non-whitespace character, every piece of
      `split(/\s+/)` is a non-empty word. */
  lemma {:induction false} SplitWhitespaceWords(s: string)
    requires s != [] && !IsWhitespace(s[0]) && !IsWhitespace(s[|s| - 1])
    ensures forall i | 0 <= i < |SplitWhitespace(s)| :: SplitWhitespace(s)[i] != []
    decreases |s|
  {
    var rest := SplitWhitespace(s[1..]);
    if |s| > 1 {
      if IsWhitespace(s[1]) {
        var k := SkipWhitespace(s[1..], 0);
        var d := s[1..][k..];
        assert k < |s| - 1;
        assert d[|d| - 1] == s[|s| - 1];
        SplitWhitespaceWords(d);
        assert rest == [[]] + SplitWhitespace(d);
      } else {
        SplitWhitespaceWords(s[1..]);
      }
    }
  }

  /** The number of words of `s`, counted independently of any splitting: the positions
      holding a non-whitespace character that follows whitespace, or that starts `s` when
      `afterSpace` holds (the character before `s` was whitespace, or there was none). */
  function WordStarts(s: string, afterSpace: bool): nat
    decreases |s|
  {
    if s == [] then 0
    else (if afterSpace && !IsWhitespace(s[0]) then 1 else 0) + WordStarts(s[1..], IsWhitespace(s[0]))
  }

  function WordCount(s: string): nat {
    WordStarts(s, true)
  }

  /** A non-empty blank prefix starts no word and leaves the next character after whitespace. */
  lemma {:induction false} WordStartsBlankPrefix(s: string, k: nat, afterSpace: bool)
    requires 0 < k <= |s| && BlankBetween(s, 0, k)
    ensures WordStarts(s, afterSpace) == WordStarts(s[k..], true)
    decreases k
  {
    assert IsWhitespace(s[0]);
    if k > 1 {
      assert BlankBetween(s[1..], 0, k - 1) by {
        forall i | 0 <= i < k - 1 ensures IsWhitespace(s[1..][i]) {
          assert s[1..][i] == s[i + 1];
        }
      }
      WordStartsBlankPrefix(s[1..], k - 1, true);
      assert s[1..][k - 1..] == s[k..];
    }
  }

  /** For a string ending in a non-whitespace character, `split(/\s+/)` gives one piece more
      than the words starting after whitespace. */
  lemma {:induction false} SplitWhitespaceLength(s: string)
    requires s != [] && !IsWhitespace(s[|s| - 1])
    ensures |SplitWhitespace(s)| == WordStarts(s, false) + 1
    decreases |s|
  {
    if IsWhitespace(s[0]) {
      var k := SkipWhitespace(s, 0);
      var d := s[k..];
      assert k < |s|;
      assert d[|d| - 1] == s[|s| - 1];
      SplitWhitespaceLength(d);
      WordStartsBlankPrefix(s, k, false);
      assert WordStarts(d, true) == 1 + WordStarts(d[1..], false);
    } else if |s| > 1 {
      assert s[1..][|s| - 2] == s[|s| - 1];
      SplitWhitespaceLength(s[1..]);
    }
  }

  /** On trimmed text `split(/\s+/)` gives one piece per word. */
  lemma SplitWhitespaceCountsWords(s: string)
    requires s != [] && !IsWhitespace(s[0]) && !IsWhitespace(s[|s| - 1])
    ensures |SplitWhitespace(s)| == WordCount(s)
  {
    SplitWhitespaceLength(s);
    assert WordStarts(s, true) == 1 + WordStarts(s[1..], false);
    assert WordStarts(s, false) == WordStarts(s[1..], false);
  }

  // ---------------------------------------------------------------------------
  // decimal digits

  predicate IsDigit(c: char) { '0' <= c <= '9' }

  predicate AllDigits(s: string) { forall i | 0 <= i < |s| :: IsDigit(s[i]) }

  function DigitChar(d: nat): (c: char)
    requires d < 10
    ensures IsDigit(c)
  {
    (('0' as int) + d) as char
  }

  /** The value of a string of decimal digits (leading zeros allowed). */
  function DigitsValue(s: string): nat
    requires AllDigits(s)
  {
    if s == [] then 0
    else DigitsValue(s[..|s| - 1]) * 10 + ((s[|s| - 1] as int) - ('0' as int))
  }

  /** `n.toString()` for a natural number: non-empty, only digits. */
  function NatToString(n: nat): (r: string)
    ensures |r| >= 1 && AllDigits(r)
  {
    if n < 10 then [DigitChar(n)] else NatToString(n / 10) + [DigitChar(n % 10)]
  }

  /** Reading back the rendered digits gives the number. */
  lemma {:induction false} NatToStringRoundTrip(n: nat)
    ensures DigitsValue(NatToString(n)) == n
  {
    if n >= 10 {
      NatToStringRoundTrip(n / 10);
      var r := NatToString(n);
      assert r[..|r| - 1] == NatToString(n / 10);
    }
  }

  /** Leading zeros do not change the value of a digit string. */
  lemma {:induction false} DigitsValueLeadingZero(s: string)
    requires AllDigits(s)
    ensures AllDigits("0" + s) && DigitsValue("0" + s) == DigitsValue(s)
    decreases |s|
  {
    if s != [] {
      DigitsValueLeadingZero(s[..|s| - 1]);
      assert ("0" + s)[..|s|] == "0" + s[..|s| - 1];
    }
  }

  /** `n.toString()` for an integer: a minus sign before the digits of a negative number. */
  function IntToString(n: int): (r: string)
    ensures |r| >= 1
  {
    if n < 0 then "-" + NatToString(-n) else NatToString(n)
  }

  /** The integer written by an optional minus sign followed by digits. */
  function ParseInt(s: string): Option<int> {
    if |s| > 1 && s[0] == '-' && AllDigits(s[1..]) then Some(0 - DigitsValue(s[1..]))
    else if s != [] && AllDigits(s) then Some(DigitsValue(s))
    else None
  }

  lemma IntToStringRoundTrip(n: int)
    ensures ParseInt(IntToString(n)) == Some(n)
  {
    if n < 0 {
      var d := NatToString(-n);
      NatToStringRoundTrip(-n);
      var s := "-" + d;
      assert s[1..] == d && s[0] == '-' && |s| > 1;
    } else {
      var d := NatToString(n);
      NatToStringRoundTrip(n);
      assert IsDigit(d[0]);
    }
  }

  /** `s.padStart(width, fill)` with a one-character fill: `s` prefixed with enough copies of
      `fill` to reach `width`, or `s` itself when it is already that long. */
  function PadStart(s: string, width: nat, fill: char): (r: string)
    ensures |r| == Max(|s|, width)
    ensures r[|r| - |s|..] == s
    ensures forall i | 0 <= i < |r| - |s| :: r[i] == fill
  {
    if |s| >= width then s else seq(width - |s|, _ => fill) + s
  }

  /** The position of the first `c` in `s`, or `|s|` when there is none. */
  function IndexOf(s: string, c: char): (i: nat)
    ensures i <= |s| && c !in s[..i]
    ensures i < |s| ==> s[i] == c
  {
    if s == [] then 0
    else if s[0] == c then 0
    else
      var i := IndexOf(s[1..], c) + 1;
      assert s[..i] == [s[0]] + s[1..][..i - 1];
      i
  }

  /** In `a + [c] + b` with `c` not in `a`, the first `c` is the one after `a`. */
  lemma IndexOfAfter(a: string, c: char, b: string)
    requires c !in a
    ensures IndexOf(a + [c] + b, c) == |a|
  {
    var s := a + [c] + b;
    assert s[|a|] == c && s[..|a|] == a;
  }
}
