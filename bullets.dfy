/** Bullet cleanup: turning the free text a text generator returns into at
    most three short bullet strings (`clean_bullets`), and the fallback pair
    used when fewer than two survive (`generate_bullet_points`). */
module Bullets {
  import opened Results
  import opened Lists
  import opened Text
  import opened Paragraphs

  /** The glyph characters `clean_bullets` strips from the front of a line.
      resume.py spells the bullet as the three characters U+201A U+00C4 U+00A2
      (the UTF-8 bytes of a bullet sign read as Mac Roman), and `lstrip` with
      that string removes any run of them. */
  predicate IsGlyph(c: char) {
    c == '\U{201A}' || c == '\U{C4}' || c == '\U{A2}'
  }

  predicate IsHyphen(c: char) {
    c == '-'
  }

  /** The test of the comprehension that splits the text into lines. */
  predicate NotBlank(s: string) {
    Strip(s) != []
  }

  /** A bullet worth showing: non-empty, trimmed and on one line. */
  predicate Usable(b: string) {
    b != [] && Trimmed(b) && SingleLine(b)
  }

  /** One stripped line after cleanup: leading glyphs, then leading hyphens,
      then surrounding whitespace go, and a one-digit enumerator `d. ` or
      `d) ` is dropped with the whitespace after it. The result is trimmed. */
  function CleanLine(ln: string): (r: string)
    ensures Trimmed(r)
  {
    DropEnumerator(Strip(LStrip(LStrip(ln, IsGlyph), IsHyphen)))
  }

  function DropEnumerator(ln2: string): (r: string)
    requires Trimmed(ln2)
    ensures Trimmed(r)
  {
    if |ln2| >= 3 && IsDigit(ln2[0]) && (ln2[1..3] == ". " || ln2[1..3] == ") ") then
      Strip(ln2[3..])
    else
      ln2
  }

  /** Cleanup only removes characters: every character of the cleaned line
      is a character of the line. */
  lemma CleanLineChars(ln: string)
    ensures forall c :: c in CleanLine(ln) ==> c in ln
  {
    var a := LStrip(ln, IsGlyph);
    var b := LStrip(a, IsHyphen);
    var ln2 := Strip(b);
    LStripSlice(ln, IsGlyph);
    LStripSlice(a, IsHyphen);
    assert forall c :: c in a ==> c in ln;
    assert forall c :: c in b ==> c in a;
    StripChars(b);
    if |ln2| >= 3 && IsDigit(ln2[0]) && (ln2[1..3] == ". " || ln2[1..3] == ") ") {
      StripChars(ln2[3..]);
      assert forall c :: c in ln2[3..] ==> c in ln2;
    }
  }

  /** Whether a stripped line leaves anything after cleanup. */
  predicate CleansToText(ln: string) {
    CleanLine(ln) != []
  }

  /** The non-blank lines of the text, each stripped. */
  function StrippedLines(text: string): seq<string> {
    Comprehension(SplitLines(text), Strip, NotBlank)
  }

  /** The cleaned lines that are not empty, in order. */
  function CleanedLines(lines: seq<string>): seq<string> {
    Comprehension(lines, CleanLine, CleansToText)
  }

  /** What `clean_bullets` returns for `text`. */
  function CleanedBullets(text: string): (r: seq<string>)
    ensures |r| <= 3
  {
    if text == [] then [] else Take(CleanedLines(StrippedLines(text)), 3)
  }

  /** `clean_bullets`: the loop over the stripped lines appends every line
      that survives cleanup, and the first three are kept. */
  method CleanBullets(text: string) returns (bullets: seq<string>)
    ensures bullets == CleanedBullets(text)
  {
    if text == [] {
      return [];
    }
    var lines := StrippedLines(text);
    var acc: seq<string> := [];
    for i := 0 to |lines|
      invariant acc == CleanedLines(lines[..i])
    {
      var ln := lines[i];
      var ln2 := Strip(LStrip(LStrip(ln, IsGlyph), IsHyphen));
      if |ln2| >= 3 && IsDigit(ln2[0]) && (ln2[1..3] == ". " || ln2[1..3] == ") ") {
        ln2 := Strip(ln2[3..]);
      }
      assert ln2 == CleanLine(ln);
      ComprehensionStep(lines, i, CleanLine, CleansToText);
      if ln2 != [] {
        acc := acc + [ln2];
      }
    }
    assert lines[..|lines|] == lines;
    bullets := Take(acc, 3);
  }

  /** Every bullet `clean_bullets` returns is usable. */
  lemma CleanedBulletsUsable(text: string)
    ensures forall k :: 0 <= k < |CleanedBullets(text)| ==> Usable(CleanedBullets(text)[k])
  {
    forall k | 0 <= k < |CleanedBullets(text)|
      ensures Usable(CleanedBullets(text)[k])
    {
      BulletUsable(text, k);
    }
  }

  /** One bullet is usable: it is cleaned from a non-blank line, so it is
      non-empty and trimmed, and it holds only characters of that line. */
  lemma BulletUsable(text: string, k: nat)
    requires k < |CleanedBullets(text)|
    ensures Usable(CleanedBullets(text)[k])
  {
    var lines := SplitLines(text);
    var stripped := StrippedLines(text);
    var b := CleanedBullets(text)[k];
    assert b == CleanedLines(stripped)[k];
    var m := ComprehensionElement(stripped, CleanLine, CleansToText, k);
    var j := ComprehensionElement(lines, Strip, NotBlank, m);
    var line := lines[j];
    assert b == CleanLine(Strip(line));
    StripChars(line);
    CleanLineChars(Strip(line));
    assert SingleLine(line);
    forall i | 0 <= i < |b|
      ensures !IsLineBreak(b[i])
    {
      assert b[i] in line;
    }
  }

  /** The bullets are the cleaned source lines that are not empty, in the
      order of those lines: `ix` names the source line of each bullet, and
      every line not named, up to the third bullet's, cleans to nothing. */
  lemma CleanedBulletsFollowLines(text: string) returns (ix: seq<nat>)
    ensures |ix| == |CleanedBullets(text)|
    ensures Increasing(ix)
    ensures forall k :: 0 <= k < |ix| ==>
              ix[k] < |SplitLines(text)|
              && CleanedBullets(text)[k] == CleanLine(Strip(SplitLines(text)[ix[k]]))
    ensures forall j :: 0 <= j < |SplitLines(text)| && j !in ix && (|ix| < 3 || j < ix[2]) ==>
              CleanLine(Strip(SplitLines(text)[j])) == []
  {
    var lines := SplitLines(text);
    if text == [] {
      return [];
    }
    assert CleanedBullets(text) == Take(Comprehension(Comprehension(lines, Strip, NotBlank), CleanLine, CleansToText), 3);
    ix := TwoComprehensionsPick(lines, Strip, NotBlank, CleanLine, CleansToText, 3);
    forall j | 0 <= j < |lines| && j !in ix && (|ix| < 3 || j < ix[2])
      ensures CleanLine(Strip(lines[j])) == []
    {
      if !NotBlank(lines[j]) {
        assert CleanLine([]) == [];
      }
    }
  }

  /** A leading glyph character never matters. */
  lemma GlyphIgnored(g: char, s: string)
    requires IsGlyph(g)
    ensures CleanLine([g] + s) == CleanLine(s)
  {
    assert ([g] + s)[1..] == s;
  }

  /** A leading hyphen never matters unless a glyph follows it (glyphs are
      stripped before hyphens). */
  lemma HyphenIgnored(s: string)
    requires s == [] || !IsGlyph(s[0])
    ensures CleanLine(['-'] + s) == CleanLine(s)
  {
    assert (['-'] + s)[1..] == s;
    assert LStrip(['-'] + s, IsGlyph) == ['-'] + s;
    assert LStrip(['-'] + s, IsHyphen) == LStrip(s, IsHyphen);
    assert LStrip(s, IsGlyph) == s;
  }

  /** Cleanup of an enumerated line given as enumerator, whitespace, a
      non-empty trimmed text and whitespace. */
  lemma CleanEnumerated(d: char, sep: char, a: string, m: string, b: string)
    requires IsDigit(d) && (sep == '.' || sep == ')')
    requires forall k :: 0 <= k < |a| ==> IsSpace(a[k])
    requires forall k :: 0 <= k < |b| ==> IsSpace(b[k])
    requires m != [] && Trimmed(m)
    ensures CleanLine([d, sep, ' '] + a + m + b) == m
  {
    var ln := [d, sep, ' '] + a + m + b;
    var ln2 := [d, sep, ' '] + a + m;
    assert LStrip(ln, IsGlyph) == ln;
    assert LStrip(ln, IsHyphen) == ln;
    assert ln == [] + ln2 + b;
    StripMiddle([], ln2, b);
    assert ln2[1..3] == [sep, ' '];
    assert ln2[3..] == a + m + [];
    StripMiddle(a, m, []);
  }

  /** A one-digit enumerator followed by text is dropped, with the
      whitespace around that text. */
  lemma EnumeratorDropped(d: char, sep: char, s: string)
    requires IsDigit(d) && (sep == '.' || sep == ')')
    requires Strip(s) != []
    ensures CleanLine([d, sep, ' '] + s) == Strip(s)
  {
    var m := Strip(s);
    var i := StripSlice(s);
    var a, b := s[..i], s[i + |m|..];
    assert s == a + m + b;
    AppendAssoc([d, sep, ' '], a, m, b);
    CleanEnumerated(d, sep, a, m, b);
  }

  /** A line with nothing for cleanup to remove: non-empty and trimmed, not
      starting with a glyph or a hyphen, and without a one-digit enumerator. */
  predicate Plain(ln: string) {
    && ln != [] && Trimmed(ln) && !IsGlyph(ln[0]) && !IsHyphen(ln[0])
    && !(|ln| >= 3 && IsDigit(ln[0]) && (ln[1..3] == ". " || ln[1..3] == ") "))
  }

  /** Cleanup keeps a plain line as it is. */
  lemma PlainLineKept(ln: string)
    requires Plain(ln)
    ensures CleanLine(ln) == ln
  {
    assert LStrip(ln, IsGlyph) == ln;
    assert LStrip(ln, IsHyphen) == ln;
  }

  /** Leading whitespace never matters when what follows it is neither a
      glyph nor a hyphen: `strip()` removes it after the two `lstrip`s. */
  lemma SpaceIgnored(a: string, s: string)
    requires forall k :: 0 <= k < |a| ==> IsSpace(a[k])
    requires s == [] || (!IsGlyph(s[0]) && !IsHyphen(s[0]) && !IsSpace(s[0]))
    ensures CleanLine(a + s) == CleanLine(s)
  {
    if a != [] {
      assert (a + s)[0] == a[0] && IsSpace(a[0]);
      assert LStrip(a + s, IsGlyph) == a + s;
      assert LStrip(a + s, IsHyphen) == a + s;
    }
    if s == [] {
      assert a + s == a;
      StripBlank(a);
    } else {
      assert LStrip(s, IsGlyph) == s;
      assert LStrip(s, IsHyphen) == s;
      var m := Strip(s);
      var i := StripSlice(s);
      StripBlank(s);
      assert i == 0;
      var b := s[|m|..];
      assert s == m + b;
      assert a + s == a + m + b;
      StripMiddle(a, m, b);
    }
  }

  /** The three glyph characters of the bullet mark never matter. */
  lemma GlyphsIgnored(s: string)
    ensures CleanLine(['\U{201A}', '\U{C4}', '\U{A2}'] + s) == CleanLine(s)
  {
    var s2 := ['\U{A2}'] + s;
    var s1 := ['\U{C4}'] + s2;
    assert ['\U{201A}', '\U{C4}', '\U{A2}'] + s == ['\U{201A}'] + s1;
    GlyphIgnored('\U{201A}', s1);
    GlyphIgnored('\U{C4}', s2);
    GlyphIgnored('\U{A2}', s);
  }

  /** A bullet as `format_bullet` writes it, the glyph and a space in front
      of a plain line, cleans back to that line. */
  lemma MarkedPlainLine(ln: string)
    requires Plain(ln)
    ensures CleanLine(BULLET_MARK + ln) == ln
  {
    assert BULLET_MARK + ln == ['\U{201A}', '\U{C4}', '\U{A2}'] + ([' '] + ln);
    GlyphsIgnored([' '] + ln);
    SpaceIgnored([' '], ln);
    PlainLineKept(ln);
  }

  /** A hyphen and a space in front of a plain line: the line comes back. */
  lemma HyphenPlainLine(ln: string)
    requires Plain(ln)
    ensures CleanLine("- " + ln) == ln
  {
    assert "- " + ln == ['-'] + ([' '] + ln);
    HyphenIgnored([' '] + ln);
    SpaceIgnored([' '], ln);
    PlainLineKept(ln);
  }

  /** A marked plain one-line line is a non-blank line of its own, which
      cleanup turns back into the plain line. */
  lemma MarkedLineCleaned(ln: string)
    requires Plain(ln) && SingleLine(ln)
    ensures BULLET_MARK + ln != [] && SingleLine(BULLET_MARK + ln)
    ensures Strip(BULLET_MARK + ln) == BULLET_MARK + ln && NotBlank(BULLET_MARK + ln)
    ensures CleanLine(BULLET_MARK + ln) == ln && CleansToText(BULLET_MARK + ln)
  {
    var x := BULLET_MARK + ln;
    assert x[0] == '\U{201A}' && !IsSpace(x[0]);
    assert x[|x| - 1] == ln[|ln| - 1];
    assert SingleLine(BULLET_MARK);
    SingleLineAppend(BULLET_MARK, ln);
    MarkedPlainLine(ln);
  }

  /** Each line behind the bullet mark, as `format_bullet` writes it. */
  function Marked(lines: seq<string>): (r: seq<string>)
    ensures |r| == |lines|
  {
    seq(|lines|, k requires 0 <= k < |lines| => BULLET_MARK + lines[k])
  }

  /** Each marked line is a non-blank line that cleans to the plain line. */
  lemma MarkedLines(lines: seq<string>)
    requires forall k :: 0 <= k < |lines| ==> Plain(lines[k]) && SingleLine(lines[k])
    ensures forall k :: 0 <= k < |lines| ==>
              var x := Marked(lines)[k];
              x != [] && SingleLine(x) && NotBlank(x) && Strip(x) == x
              && CleansToText(x) && CleanLine(x) == lines[k]
  {
    forall k | 0 <= k < |lines|
      ensures var x := Marked(lines)[k];
              x != [] && SingleLine(x) && NotBlank(x) && Strip(x) == x
              && CleansToText(x) && CleanLine(x) == lines[k]
    {
      MarkedLineCleaned(lines[k]);
    }
  }

  /** The cleaned lines of marked plain lines are the plain lines. */
  lemma MarkedCleanedLines(lines: seq<string>)
    requires forall k :: 0 <= k < |lines| ==> Plain(lines[k]) && SingleLine(lines[k])
    ensures Comprehension(Marked(lines), Strip, NotBlank) == Marked(lines)
    ensures CleanedLines(Marked(lines)) == lines
  {
    var xs := Marked(lines);
    MarkedLines(lines);
    ComprehensionAll(xs, Strip, NotBlank);
    ComprehensionAll(xs, CleanLine, CleansToText);
  }

  /** Text made of plain one-line lines, each behind the bullet mark and a
      space (the format the generator is asked for), cleans to the first
      three of those lines: all of them survive, in order, and the rest are
      cut off. */
  lemma MarkedLinesCleaned(lines: seq<string>)
    requires forall k :: 0 <= k < |lines| ==> Plain(lines[k]) && SingleLine(lines[k])
    ensures CleanedBullets(Join(Marked(lines), "\n")) == Take(lines, 3)
  {
    var xs := Marked(lines);
    if lines != [] {
      MarkedLines(lines);
      var text := Join(xs, "\n");
      SplitLinesJoin(xs);
      assert text != [];
      MarkedCleanedLines(lines);
    }
  }

  const FIRST_HEAD_1 := "Built an end-to-end project deliverable "
  const FIRST_HEAD_2 := "from requirements through validation, "
  const FIRST_TAIL_1 := "emphasizing clarity and "
  const FIRST_TAIL_2 := "measurable impact."
  const SECOND_HEAD_1 := "Implemented reliable data processing "
  const SECOND_HEAD_2 := "and analysis workflow with clean "
  const SECOND_TAIL := "documentation and reproducibility."

  /** The two bullets used when cleanup leaves fewer than two, as resume.py
      has them (each literal is written in pieces of at most forty
      characters). */
  const FALLBACK_FIRST: string := FIRST_HEAD_1 + FIRST_HEAD_2 + FIRST_TAIL_1 + FIRST_TAIL_2
  const FALLBACK_SECOND: string := SECOND_HEAD_1 + SECOND_HEAD_2 + SECOND_TAIL
  const FALLBACK_BULLETS: seq<string> := [FALLBACK_FIRST, FALLBACK_SECOND]

  /** The fallback bullets are usable too. */
  lemma FallbackUsable()
    ensures forall k :: 0 <= k < |FALLBACK_BULLETS| ==> Usable(FALLBACK_BULLETS[k])
  {
    FallbackFirstUsable();
    FallbackSecondUsable();
  }

  lemma FirstHeadOneLine()
    ensures SingleLine(FIRST_HEAD_1) && SingleLine(FIRST_HEAD_2)
  {
    PrintableSingleLine(FIRST_HEAD_1);
    PrintableSingleLine(FIRST_HEAD_2);
  }

  lemma FirstTailOneLine()
    ensures SingleLine(FIRST_TAIL_1) && SingleLine(FIRST_TAIL_2)
  {
    PrintableSingleLine(FIRST_TAIL_1);
    PrintableSingleLine(FIRST_TAIL_2);
  }

  lemma SecondHeadOneLine()
    ensures SingleLine(SECOND_HEAD_1) && SingleLine(SECOND_HEAD_2)
  {
    PrintableSingleLine(SECOND_HEAD_1);
    PrintableSingleLine(SECOND_HEAD_2);
  }

  lemma FallbackFirstUsable()
    ensures Usable(FALLBACK_FIRST)
  {
    FirstHeadOneLine();
    FirstTailOneLine();
    SingleLineAppend(FIRST_HEAD_1, FIRST_HEAD_2);
    SingleLineAppend(FIRST_HEAD_1 + FIRST_HEAD_2, FIRST_TAIL_1);
    SingleLineAppend(FIRST_HEAD_1 + FIRST_HEAD_2 + FIRST_TAIL_1, FIRST_TAIL_2);
    assert FALLBACK_FIRST[0] == FIRST_HEAD_1[0] == 'B';
    assert FALLBACK_FIRST[|FALLBACK_FIRST| - 1] == FIRST_TAIL_2[|FIRST_TAIL_2| - 1] == '.';
  }

  lemma FallbackSecondUsable()
    ensures Usable(FALLBACK_SECOND)
  {
    SecondHeadOneLine();
    PrintableSingleLine(SECOND_TAIL);
    SingleLineAppend(SECOND_HEAD_1, SECOND_HEAD_2);
    SingleLineAppend(SECOND_HEAD_1 + SECOND_HEAD_2, SECOND_TAIL);
    assert FALLBACK_SECOND[0] == SECOND_HEAD_1[0] == 'I';
    assert FALLBACK_SECOND[|FALLBACK_SECOND| - 1] == SECOND_TAIL[|SECOND_TAIL| - 1] == '.';
  }

  /** The post-processing of `generate_bullet_points`: the generated
      content (`None` reads as empty) is stripped and cleaned, and fewer
      than two bullets are replaced by the fallback pair. */
  method GenerateBulletPoints(content: Option<string>) returns (bullets: seq<string>)
    ensures 2 <= |bullets| <= 3
    ensures forall k :: 0 <= k < |bullets| ==> Usable(bullets[k])
    ensures |CleanedBullets(Strip(content.GetOr("")))| < 2 ==> bullets == FALLBACK_BULLETS
    ensures |CleanedBullets(Strip(content.GetOr("")))| >= 2 ==> bullets == CleanedBullets(Strip(content.GetOr("")))
  {
    var raw := Strip(content.GetOr(""));
    bullets := CleanBullets(raw);
    CleanedBulletsUsable(raw);
    if |bullets| < 2 {
      FallbackUsable();
      bullets := Take(FALLBACK_BULLETS, 3);
    }
  }
}
