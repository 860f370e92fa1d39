/** The scan at the top of `replace_first_project_safely`: it finds the
    "PROJECT EXPERIENCE" heading, the first project entry below it, and where
    that entry ends. */
module Locator {
  import opened Results
  import opened Lists
  import opened Text
  import opened Paragraphs

  /** The errors of `replace_first_project_safely`: the two `ValueError`s of
      the scan, and the `IndexError` the insertion raises when the entry runs
      to the end of the document. */
  datatype Error = SectionNotFound | RecordNotFound | IndexOutOfRange

  /** The paragraphs `[start, end)` of one project entry. */
  datatype Span = Span(start: nat, end: nat)

  const HEADING: string := "PROJECT EXPERIENCE"

  /** A paragraph whose upper-cased text contains the heading phrase. */
  predicate IsHeading(b: Block) {
    Contains(Upper(b.text), HEADING)
  }

  /** A paragraph that can open the first entry: not a heading, not blank. */
  predicate IsRecordStart(b: Block) {
    !IsHeading(b) && !IsBlank(b)
  }

  /** A paragraph that closes the entry: not a heading, first run bold. */
  predicate IsBoundary(b: Block) {
    !IsHeading(b) && b.firstRunBold
  }

  /** `h` is the first heading paragraph. */
  ghost predicate FirstHeadingAt(ps: seq<Block>, h: nat) {
    h < |ps| && IsHeading(ps[h]) && forall i :: 0 <= i < h ==> !IsHeading(ps[i])
  }

  /** `s` is the first paragraph after the first heading that is neither
      blank nor a heading. */
  ghost predicate RecordStartsAt(ps: seq<Block>, s: nat) {
    exists h: nat :: FirstHeadingAt(ps, h) && h < s < |ps| && IsRecordStart(ps[s])
                && forall i :: h < i < s ==> !IsRecordStart(ps[i])
  }

  /** `e` ends the entry that starts at `s`: the first boundary after `s`;
      when there is none, the first blank paragraph after `s`; when there is
      none either, the end of the document. */
  ghost predicate RecordEndsAt(ps: seq<Block>, s: nat, e: nat) {
    && s < e <= |ps|
    && (forall i :: s < i < e ==> !IsBoundary(ps[i]))
    && ((e < |ps| && IsBoundary(ps[e]))
        || ((forall i :: s < i < |ps| ==> !IsBoundary(ps[i]))
            && (forall i :: s < i < e ==> !IsBlank(ps[i]))
            && (e == |ps| || IsBlank(ps[e]))))
  }

  /** Where the entry that starts at `s` ends: the first boundary after
      `s`; when there is none, the first blank paragraph after `s`; when
      there is none either, the end of the document. */
  function EntryEnd(ps: seq<Block>, s: nat): (e: nat)
    requires s < |ps|
    ensures s < e <= |ps|
  {
    var b := FirstFrom(ps, s + 1, IsBoundary);
    if b < |ps| then b else FirstFrom(ps, s + 1, IsBlank)
  }

  /** `EntryEnd` is the end `RecordEndsAt` describes, and the only one. */
  lemma EntryEndExact(ps: seq<Block>, s: nat, e: nat)
    requires s < |ps|
    ensures RecordEndsAt(ps, s, e) <==> e == EntryEnd(ps, s)
  {
    var b := FirstFrom(ps, s + 1, IsBoundary);
    if RecordEndsAt(ps, s, e) {
      if e < |ps| && IsBoundary(ps[e]) {
        FirstFromUnique(ps, s + 1, IsBoundary, e);
      } else {
        FirstFromUnique(ps, s + 1, IsBoundary, |ps|);
        FirstFromUnique(ps, s + 1, IsBlank, e);
      }
    }
  }

  /** What the scan finds in `ps`: an entry that starts after the heading
      and ends within the document. */
  function Located(ps: seq<Block>): (r: Result<Span, Error>)
    ensures r != Err(IndexOutOfRange)
    ensures r.Ok? ==> 0 < r.value.start < r.value.end <= |ps|
  {
    var h := FirstFrom(ps, 0, IsHeading);
    if h == |ps| then Err(SectionNotFound)
    else
      var s := FirstFrom(ps, h + 1, IsRecordStart);
      if s == |ps| then Err(RecordNotFound)
      else Ok(Span(s, EntryEnd(ps, s)))
  }

  /** The two errors are told apart: the first when no paragraph is a
      heading, the second when nothing after the first heading can open an
      entry. */
  lemma LocatedErrors(ps: seq<Block>)
    ensures Located(ps) == Err(SectionNotFound) <==> forall i :: 0 <= i < |ps| ==> !IsHeading(ps[i])
    ensures Located(ps) == Err(RecordNotFound) <==>
              exists h: nat :: FirstHeadingAt(ps, h) && forall i :: h < i < |ps| ==> !IsRecordStart(ps[i])
  {
    var h := FirstFrom(ps, 0, IsHeading);
    if h < |ps| {
      assert FirstHeadingAt(ps, h);
      forall h': nat | FirstHeadingAt(ps, h')
        ensures h' == h
      {
        FirstFromUnique(ps, 0, IsHeading, h');
      }
    }
  }

  /** `s` is where the scan starts the entry: after the first heading, the
      first paragraph that can open an entry. */
  lemma StartExact(ps: seq<Block>, s: nat) returns (h: nat)
    requires RecordStartsAt(ps, s)
    ensures h == FirstFrom(ps, 0, IsHeading) < |ps|
    ensures FirstFrom(ps, h + 1, IsRecordStart) == s
  {
    h :| FirstHeadingAt(ps, h) && h < s < |ps| && IsRecordStart(ps[s])
         && forall i :: h < i < s ==> !IsRecordStart(ps[i]);
    FirstFromUnique(ps, 0, IsHeading, h);
    FirstFromUnique(ps, h + 1, IsRecordStart, s);
  }

  /** A found entry is the one `RecordStartsAt` and `RecordEndsAt` describe. */
  lemma LocatedFound(ps: seq<Block>)
    requires Located(ps).Ok?
    ensures RecordStartsAt(ps, Located(ps).value.start)
    ensures RecordEndsAt(ps, Located(ps).value.start, Located(ps).value.end)
  {
    var h := FirstFrom(ps, 0, IsHeading);
    assert FirstHeadingAt(ps, h);
    var s := Located(ps).value.start;
    EntryEndExact(ps, s, EntryEnd(ps, s));
  }

  /** The characterisation is complete: any `s` and `e` that satisfy it are
      what the scan finds. */
  lemma LocatedComplete(ps: seq<Block>, s: nat, e: nat)
    requires RecordStartsAt(ps, s) && RecordEndsAt(ps, s, e)
    ensures Located(ps) == Ok(Span(s, e))
  {
    var h := StartExact(ps, s);
    EntryEndExact(ps, s, e);
  }

  /** The entry the scan finds, named by the first heading `h` and the
      first entry start `s` after it. */
  lemma LocatedAt(ps: seq<Block>, h: nat, s: nat)
    requires h == FirstFrom(ps, 0, IsHeading) < |ps|
    requires s == FirstFrom(ps, h + 1, IsRecordStart) < |ps|
    ensures Located(ps) == Ok(Span(s, EntryEnd(ps, s)))
  {
  }

  /** The `for ... else` search of resume.py for the first blank paragraph
      after `start`, with the length of the document when there is none. */
  method FirstBlankAfter(ps: seq<Block>, start: nat) returns (e: nat)
    requires start < |ps|
    ensures e == FirstFrom(ps, start + 1, IsBlank)
  {
    for j := start + 1 to |ps|
      invariant FirstFrom(ps, start + 1, IsBlank) >= j
    {
      if IsBlank(ps[j]) {
        return j;
      }
    }
    return |ps|;
  }

  /** The scan as resume.py writes it: flags set by one pass with `continue`
      and `break`, then the `for ... else` search for a blank paragraph. */
  method Locate(ps: seq<Block>) returns (r: Result<Span, Error>)
    ensures r == Located(ps)
  {
    ghost var h := FirstFrom(ps, 0, IsHeading);
    ghost var s := if h < |ps| then FirstFrom(ps, h + 1, IsRecordStart) else |ps|;
    ghost var b := if s < |ps| then FirstFrom(ps, s + 1, IsBoundary) else |ps|;
    var sectionFound := false;
    var startIdx := -1;
    var endIdx := -1;
    for i := 0 to |ps|
      invariant sectionFound <==> h < i
      invariant startIdx == (if s < i then s else -1)
      invariant endIdx == -1
      invariant s < i ==> b >= i
    {
      FirstFromBound(ps, 0, IsHeading, i);
      if h < i {
        FirstFromBound(ps, h + 1, IsRecordStart, i);
      }
      if s < i {
        FirstFromBound(ps, s + 1, IsBoundary, i);
      }
      if IsHeading(ps[i]) {
        assert h <= i && s != i;
        sectionFound := true;
        continue;
      }
      if sectionFound && startIdx == -1 && !IsBlank(ps[i]) {
        assert s == i;
        startIdx := i;
        continue;
      }
      if sectionFound && startIdx != -1 {
        assert s < i;
        if ps[i].firstRunBold {
          assert b == i;
          endIdx := i;
          break;
        }
        assert b != i;
      }
    }
    if !sectionFound {
      assert h == |ps|;
      return Err(SectionNotFound);
    }
    if startIdx == -1 {
      assert s == |ps|;
      return Err(RecordNotFound);
    }
    if endIdx == -1 {
      assert b == |ps|;
      endIdx := FirstBlankAfter(ps, startIdx);
    } else {
      assert b == endIdx;
    }
    assert endIdx == EntryEnd(ps, s);
    LocatedAt(ps, h, s);
    return Ok(Span(startIdx, endIdx));
  }
}
