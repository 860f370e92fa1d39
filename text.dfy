/** The Python `str` operations the resume editor relies on: `isspace`,
    `strip`, `lstrip(chars)`, `upper`, `in`, `isdigit`, `splitlines` and
    `"\n".join`, over Dafny strings (sequences of Unicode scalar values). */
module Text {
  import opened Lists

  /** Python's `str.isspace()` for one character: the characters that
      `strip()` without arguments removes. */
  predicate IsSpace(c: char) {
    || ('\t' <= c <= '\r')            // \t \n \v \f \r
    || ('\U{1C}' <= c <= ' ')         // the four separators and the space
    || c == '\U{85}' || c == '\U{A0}' || c == '\U{1680}'
    || ('\U{2000}' <= c <= '\U{200A}')
    || c == '\U{2028}' || c == '\U{2029}' || c == '\U{202F}' || c == '\U{205F}'
    || c == '\U{3000}'
  }

  /** The line boundaries of Python's `str.splitlines()` (`\r\n` is handled
      by `SplitLines` as one boundary). */
  predicate IsLineBreak(c: char) {
    || ('\n' <= c <= '\r')            // \n \v \f \r
    || ('\U{1C}' <= c <= '\U{1E}')
    || c == '\U{85}' || c == '\U{2028}' || c == '\U{2029}'
  }

  /** Python's `str.isdigit()`, restricted to the ASCII digits. */
  predicate IsDigit(c: char) {
    '0' <= c <= '9'
  }

  /** No leading and no trailing whitespace. */
  predicate Trimmed(s: string) {
    s == [] || (!IsSpace(s[0]) && !IsSpace(s[|s| - 1]))
  }

  /** No line boundary anywhere in the string. */
  predicate SingleLine(s: string) {
    forall j :: 0 <= j < |s| ==> !IsLineBreak(s[j])
  }

  /** Printable ASCII text is on one line. */
  lemma PrintableSingleLine(s: string)
    requires forall k :: 0 <= k < |s| ==> ' ' <= s[k] <= '~'
    ensures SingleLine(s)
  {
  }

  /** Two one-line strings make a one-line string. */
  lemma SingleLineAppend(a: string, b: string)
    requires SingleLine(a) && SingleLine(b)
    ensures SingleLine(a + b)
  {
    assert forall j :: |a| <= j < |a + b| ==> (a + b)[j] == b[j - |a|];
  }

  /** Python's `s.lstrip(chars)`: drop the longest prefix whose characters
      all satisfy `p`. What is left does not start with such a character. */
  function LStrip(s: string, p: char -> bool): (r: string)
    ensures |r| <= |s|
    ensures r == [] || !p(r[0])
    decreases |s|
  {
    if s != [] && p(s[0]) then LStrip(s[1..], p) else s
  }

  /** `LStrip` removes a prefix, and every character it removes satisfies `p`. */
  lemma {:induction false} LStripSlice(s: string, p: char -> bool)
    ensures LStrip(s, p) == s[|s| - |LStrip(s, p)|..]
    ensures forall k :: 0 <= k < |s| - |LStrip(s, p)| ==> p(s[k])
    decreases |s|
  {
    if s != [] && p(s[0]) {
      LStripSlice(s[1..], p);
    }
  }

  /** Python's `s.rstrip(chars)`: drop the longest suffix whose characters
      all satisfy `p`. What is left does not end with such a character. */
  function RStrip(s: string, p: char -> bool): (r: string)
    ensures |r| <= |s|
    ensures r == [] || !p(r[|r| - 1])
    decreases |s|
  {
    if s != [] && p(s[|s| - 1]) then RStrip(s[..|s| - 1], p) else s
  }

  /** `RStrip` removes a suffix, and every character it removes satisfies `p`. */
  lemma {:induction false} RStripSlice(s: string, p: char -> bool)
    ensures RStrip(s, p) == s[..|RStrip(s, p)|]
    ensures forall k :: |RStrip(s, p)| <= k < |s| ==> p(s[k])
    decreases |s|
  {
    if s != [] && p(s[|s| - 1]) {
      RStripSlice(s[..|s| - 1], p);
    }
  }

  /** Python's `s.strip()`: the slice of `s` left after removing leading and
      trailing whitespace. It is empty exactly when `s` is blank. */
  function Strip(s: string): (r: string)
    ensures Trimmed(r)
    ensures Trimmed(s) ==> r == s
  {
    var l := LStrip(s, IsSpace);
    RStripSlice(l, IsSpace);
    RStrip(l, IsSpace)
  }

  /** `Strip(s)` is a slice of `s` with only whitespace around it. */
  lemma StripSlice(s: string) returns (i: nat)
    ensures i + |Strip(s)| <= |s| && Strip(s) == s[i..i + |Strip(s)|]
    ensures forall k :: 0 <= k < i ==> IsSpace(s[k])
    ensures forall k :: i + |Strip(s)| <= k < |s| ==> IsSpace(s[k])
  {
    var l := LStrip(s, IsSpace);
    LStripSlice(s, IsSpace);
    RStripSlice(l, IsSpace);
    i := |s| - |l|;
    assert forall k :: 0 <= k < |l| ==> l[k] == s[i + k];
  }

  /** `Strip(s)` is empty exactly when `s` is blank. */
  lemma StripBlank(s: string)
    ensures Strip(s) == [] <==> forall k :: 0 <= k < |s| ==> IsSpace(s[k])
  {
    var i := StripSlice(s);
    if Strip(s) != [] {
      assert !IsSpace(s[i]);
    }
  }

  /** Every character of `Strip(s)` is a character of `s`. */
  lemma StripChars(s: string)
    ensures forall c :: c in Strip(s) ==> c in s
  {
    var i := StripSlice(s);
    assert forall k :: 0 <= k < |Strip(s)| ==> Strip(s)[k] == s[i + k];
  }

  /** `Strip` finds the trimmed middle of any string that is whitespace, a
      non-empty trimmed part, and whitespace again. */
  lemma StripMiddle(a: string, m: string, b: string)
    requires forall k :: 0 <= k < |a| ==> IsSpace(a[k])
    requires forall k :: 0 <= k < |b| ==> IsSpace(b[k])
    requires m != [] && Trimmed(m)
    ensures Strip(a + m + b) == m
  {
    var s := a + m + b;
    var r := Strip(s);
    var i := StripSlice(s);
    assert s[|a|] == m[0];
    assert s[|a| + |m| - 1] == m[|m| - 1];
    assert r != [] by {
      assert !IsSpace(s[|a|]);
    }
    if i < |a| {
      assert false;
    }
    if i > |a| {
      assert false;
    }
    if i + |r| > |a| + |m| {
      assert false;
    }
    if i + |r| < |a| + |m| {
      assert false;
    }
    assert r == s[|a|..|a| + |m|] == m;
  }

  /** Python's `s.upper()` on ASCII letters; every other character is kept. */
  function Upper(s: string): (r: string)
    ensures |r| == |s|
  {
    seq(|s|, i requires 0 <= i < |s| => if 'a' <= s[i] <= 'z' then (s[i] as int - 32) as char else s[i])
  }

  /** Upper-casing leaves a string without lower-case ASCII letters alone. */
  lemma UpperKeepsCapitals(s: string)
    requires forall i :: 0 <= i < |s| ==> !('a' <= s[i] <= 'z')
    ensures Upper(s) == s
  {
  }

  /** `sub` occurs in `s` starting at index `i`. */
  predicate OccursAt(s: string, sub: string, i: nat) {
    i + |sub| <= |s| && s[i..i + |sub|] == sub
  }

  /** Python's `sub in s`: `sub` occurs in `s` at some index. */
  predicate Contains(s: string, sub: string) {
    exists i: nat | i <= |s| :: OccursAt(s, sub, i)
  }

  /** Python's `s.splitlines()`: the text between line boundaries, with no
      empty line for a final boundary. */
  function SplitLines(s: string): (r: seq<string>)
    ensures forall k :: 0 <= k < |r| ==> SingleLine(r[k])
    ensures r == [] <==> s == []
    decreases |s|
  {
    if s == [] then []
    else
      var k := FirstFrom(s, 0, IsLineBreak);
      if k == |s| then [s]
      else
        var w := if s[k] == '\r' && k + 1 < |s| && s[k + 1] == '\n' then 2 else 1;
        [s[..k]] + SplitLines(s[k + w..])
  }

  /** Python's `sep.join(xs)`. */
  function Join(xs: seq<string>, sep: string): string
    decreases |xs|
  {
    if xs == [] then []
    else if |xs| == 1 then xs[0]
    else xs[0] + sep + Join(xs[1..], sep)
  }

  /** `SplitLines` cuts the first line off at the first line break, which
      is two characters wide when it is `\r\n`. */
  lemma SplitLinesCons(s: string, k: nat, w: nat)
    requires k == FirstFrom(s, 0, IsLineBreak) < |s|
    requires w == if s[k] == '\r' && k + 1 < |s| && s[k + 1] == '\n' then 2 else 1
    ensures SplitLines(s) == [s[..k]] + SplitLines(s[k + w..])
  {
  }

  /** `Join` of a first string and a non-empty rest. */
  lemma JoinCons(x: string, xs: seq<string>, sep: string)
    requires xs != []
    ensures Join([x] + xs, sep) == x + sep + Join(xs, sep)
  {
    assert ([x] + xs)[1..] == xs;
  }

  /** When the text after the first line break is given back by joining its
      lines with the break, so is the whole text. */
  lemma JoinSplitGlue(s: string, k: nat, w: nat, sep: string)
    requires k == FirstFrom(s, 0, IsLineBreak) < |s|
    requires w == if s[k] == '\r' && k + 1 < |s| && s[k + 1] == '\n' then 2 else 1
    requires k + w < |s| && sep == s[k..k + w]
    requires Join(SplitLines(s[k + w..]), sep) == s[k + w..]
    ensures Join(SplitLines(s), sep) == s
  {
    var rest := s[k + w..];
    SplitLinesCons(s, k, w);
    JoinCons(s[..k], SplitLines(rest), sep);
    assert s == s[..k] + s[k..k + w] + rest;
  }

  /** Every line break of `s` is a single `\n`, and `s` does not end with one. */
  predicate NewlinesOnly(s: string) {
    && (forall j :: 0 <= j < |s| && IsLineBreak(s[j]) ==> s[j] == '\n')
    && (s == [] || s[|s| - 1] != '\n')
  }

  /** What follows the first line break keeps the property. */
  lemma NewlinesOnlyRest(s: string, k: nat)
    requires NewlinesOnly(s) && k < |s| && s[k] == '\n'
    ensures k + 1 < |s| && NewlinesOnly(s[k + 1..])
  {
    var rest := s[k + 1..];
    forall j | 0 <= j < |rest| && IsLineBreak(rest[j])
      ensures rest[j] == '\n'
    {
      assert rest[j] == s[k + 1 + j];
    }
    if rest != [] {
      assert rest[|rest| - 1] == s[|s| - 1];
    }
  }

  /** A string whose line breaks are all single `\n`s, and which does not
      end with one, splits into lines that `\n`-joining gives back. */
  lemma {:induction false} JoinSplitLines(s: string)
    requires NewlinesOnly(s)
    ensures Join(SplitLines(s), "\n") == s
    decreases |s|
  {
    if s != [] {
      var k := FirstFrom(s, 0, IsLineBreak);
      if k < |s| {
        assert IsLineBreak(s[k]);
        NewlinesOnlyRest(s, k);
        JoinSplitLines(s[k + 1..]);
        JoinSplitGlue(s, k, 1, "\n");
      }
    }
  }

  /** The character at `j` is not a line break, or it is one half of a
      `\r\n` pair. */
  predicate InCrlf(s: string, j: nat)
    requires j < |s|
  {
    IsLineBreak(s[j]) ==>
      (s[j] == '\r' && j + 1 < |s| && s[j + 1] == '\n') || (s[j] == '\n' && 0 < j && s[j - 1] == '\r')
  }

  /** Every line break of `s` belongs to a `\r\n` pair, and `s` does not
      end with a line break. */
  predicate CrlfOnly(s: string) {
    && (forall j: nat :: j < |s| ==> InCrlf(s, j))
    && (s == [] || s[|s| - 1] != '\n')
  }

  /** What follows the first `\r\n` pair keeps the property. */
  lemma CrlfOnlyRest(s: string, k: nat)
    requires CrlfOnly(s) && k + 1 < |s| && s[k] == '\r' && s[k + 1] == '\n'
    ensures CrlfOnly(s[k + 2..])
  {
    var rest := s[k + 2..];
    forall j: nat | j < |rest|
      ensures InCrlf(rest, j)
    {
      assert InCrlf(s, k + 2 + j);
      assert rest[j] == s[k + 2 + j];
      if j + 1 < |rest| {
        assert rest[j + 1] == s[k + 3 + j];
      }
      if 0 < j {
        assert rest[j - 1] == s[k + 1 + j];
      }
    }
    if rest != [] {
      assert rest[|rest| - 1] == s[|s| - 1];
    }
  }

  /** The first line break of such a string opens a `\r\n` pair, and some
      text follows the pair. */
  lemma CrlfFirstBreak(s: string, k: nat)
    requires CrlfOnly(s) && k == FirstFrom(s, 0, IsLineBreak) < |s|
    ensures k + 2 < |s| && s[k] == '\r' && s[k + 1] == '\n'
  {
    assert InCrlf(s, k);
    if s[k] == '\n' {
      FirstFromBound(s, 0, IsLineBreak, k - 1);
    }
  }

  /** The same for a string whose line breaks are all `\r\n` pairs: its
      lines joined with `\r\n` give it back, so each pair is one boundary. */
  lemma {:induction false} JoinSplitCrlfLines(s: string)
    requires CrlfOnly(s)
    ensures Join(SplitLines(s), "\r\n") == s
    decreases |s|
  {
    if s != [] {
      var k := FirstFrom(s, 0, IsLineBreak);
      if k < |s| {
        CrlfFirstBreak(s, k);
        CrlfOnlyRest(s, k);
        JoinSplitCrlfLines(s[k + 2..]);
        JoinSplitGlue(s, k, 2, "\r\n");
      }
    }
  }

  /** Joining non-empty one-line strings with newlines and splitting the result
      into lines gives the strings back. */
  lemma {:induction false} SplitLinesJoin(xs: seq<string>)
    requires forall k :: 0 <= k < |xs| ==> xs[k] != [] && SingleLine(xs[k])
    ensures SplitLines(Join(xs, "\n")) == xs
    decreases |xs|
  {
    if |xs| == 1 {
      assert FirstFrom(xs[0], 0, IsLineBreak) == |xs[0]|;
    } else if |xs| > 1 {
      var x := xs[0];
      var rest := Join(xs[1..], "\n");
      var s := x + "\n" + rest;
      assert forall j :: 0 <= j < |x| ==> s[j] == x[j] && !IsLineBreak(s[j]);
      assert s[|x|] == '\n' && IsLineBreak(s[|x|]);
      assert FirstFrom(s, 0, IsLineBreak) == |x|;
      assert s[..|x|] == x;
      assert s[|x| + 1..] == rest;
      SplitLinesJoin(xs[1..]);
      assert [x] + xs[1..] == xs;
    }
  }
}
