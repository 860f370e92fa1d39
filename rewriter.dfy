/** The rewrite of `replace_first_project_safely`: the first project entry
    below the heading is deleted and a new title paragraph and bullet
    paragraphs take its place. */
module Rewriter {
  import opened Results
  import opened Lists
  import opened Text
  import opened Bullets
  import opened Paragraphs
  import opened Locator

  /** `[bp.strip() for bp in new_bullets if bp and bp.strip()]`: `bp` is
      non-empty whenever `bp.strip()` is, so the test is `NotBlank`. */
  function FilterBullets(bullets: seq<string>): seq<string> {
    Comprehension(bullets, Strip, NotBlank)
  }

  /** The filter keeps the bullets that are not blank, stripped and in their
      order: `ix` names the input bullet of each result, and every input
      bullet that is not blank is named. */
  lemma FilteredBullets(bullets: seq<string>) returns (ix: seq<nat>)
    ensures |ix| == |FilterBullets(bullets)| && Increasing(ix)
    ensures forall k :: 0 <= k < |ix| ==>
              ix[k] < |bullets| && NotBlank(bullets[ix[k]])
              && FilterBullets(bullets)[k] == Strip(bullets[ix[k]])
    ensures forall i :: 0 <= i < |bullets| && NotBlank(bullets[i]) ==> i in ix
    ensures forall k :: 0 <= k < |ix| ==>
              FilterBullets(bullets)[k] != [] && Trimmed(FilterBullets(bullets)[k])
  {
    ComprehensionPicks(bullets, Strip, NotBlank);
    ix := Picked(bullets, NotBlank);
  }

  /** Bullets that are already non-empty and trimmed, such as those of
      `generate_bullet_points`, pass the filter unchanged. */
  lemma FilterKeepsTrimmed(bullets: seq<string>)
    requires forall k :: 0 <= k < |bullets| ==> bullets[k] != [] && Trimmed(bullets[k])
    ensures FilterBullets(bullets) == bullets
  {
    ComprehensionKeepsAll(bullets, Strip, NotBlank);
  }

  /** The paragraphs after the rewrite of the entry `span`. */
  function Spliced(ps: seq<Block>, span: Span, title: string, bullets: seq<string>): seq<Block>
    requires span.start <= span.end <= |ps|
  {
    ps[..span.start] + [TitleBlock(title)] + BulletBlocks(bullets) + ps[span.end..]
  }

  /** The shape of a rewrite: the paragraphs before the entry, the title, one
      paragraph per bullet in order, and the paragraphs after the entry, so
      the length changes by `1 + |bullets| - (end - start)`. */
  lemma SplicedShape(ps: seq<Block>, span: Span, title: string, bullets: seq<string>)
    requires span.start <= span.end <= |ps|
    ensures var r := Spliced(ps, span, title, bullets);
      && |r| == |ps| - (span.end - span.start) + 1 + |bullets|
      && r[..span.start] == ps[..span.start]
      && r[span.start] == TitleBlock(title)
      && (forall k :: 0 <= k < |bullets| ==> r[span.start + 1 + k] == BulletBlock(bullets[k]))
      && r[span.start + 1 + |bullets|..] == ps[span.end..]
  {
    var s, n := span.start, |bullets|;
    var r := Spliced(ps, span, title, bullets);
    assert r == (ps[..s] + [TitleBlock(title)] + BulletBlocks(bullets)) + ps[span.end..];
    assert |ps[..s] + [TitleBlock(title)] + BulletBlocks(bullets)| == s + 1 + n;
    forall k | 0 <= k < n
      ensures r[s + 1 + k] == BulletBlock(bullets[k])
    {
      assert r[s + 1 + k] == BulletBlocks(bullets)[k];
    }
  }

  /** The corrected rewrite: the located entry is replaced, also when it
      runs to the end of the document; a failed scan changes nothing. */
  function Rewrite(ps: seq<Block>, title: string, bullets: seq<string>): Result<seq<Block>, Error> {
    match Located(ps)
    case Err(e) => Err(e)
    case Ok(span) => Ok(Spliced(ps, span, title, FilterBullets(bullets)))
  }

  /** The rewrite as resume.py performs it: when the entry runs to the end of
      the document, nothing is left at `start` after the deletion and the
      insertion fails. */
  function RewriteAsWritten(ps: seq<Block>, title: string, bullets: seq<string>): Result<seq<Block>, Error> {
    match Located(ps)
    case Err(e) => Err(e)
    case Ok(span) =>
      if span.end == |ps| then Err(IndexOutOfRange)
      else Ok(Spliced(ps, span, title, FilterBullets(bullets)))
  }

  /** A rewrite fails exactly when the scan fails, and with the scan's
      error. */
  lemma RewriteFails(ps: seq<Block>, title: string, bullets: seq<string>)
    ensures Rewrite(ps, title, bullets).Err? <==> Located(ps).Err?
    ensures Located(ps).Err? ==> Rewrite(ps, title, bullets).error == Located(ps).error
  {
  }

  /** What a successful rewrite produces: the document with the first entry
      replaced by the title and one paragraph per filtered bullet, in order. */
  lemma RewriteResult(ps: seq<Block>, title: string, bullets: seq<string>) returns (r: seq<Block>)
    requires Located(ps).Ok?
    ensures Rewrite(ps, title, bullets) == Ok(r)
    ensures var s, e, bs := Located(ps).value.start, Located(ps).value.end, FilterBullets(bullets);
      && |r| == |ps| - (e - s) + 1 + |bs|
      && r[..s] == ps[..s]
      && r[s] == TitleBlock(title)
      && (forall k :: 0 <= k < |bs| ==> r[s + 1 + k] == BulletBlock(bs[k]))
      && r[s + 1 + |bs|..] == ps[e..]
  {
    var span := Located(ps).value;
    var bs := FilterBullets(bullets);
    r := Spliced(ps, span, title, bs);
    SplicedShape(ps, span, title, bs);
  }

  /** The code as written fails exactly when the entry runs to the end of the
      document, and otherwise agrees with the corrected rewrite. */
  lemma AsWrittenFailsAtEnd(ps: seq<Block>, title: string, bullets: seq<string>)
    ensures RewriteAsWritten(ps, title, bullets) == Err(IndexOutOfRange)
            <==> Located(ps).Ok? && Located(ps).value.end == |ps|
    ensures RewriteAsWritten(ps, title, bullets) != Err(IndexOutOfRange)
            ==> RewriteAsWritten(ps, title, bullets) == Rewrite(ps, title, bullets)
  {
    match Located(ps)
    case Err(e) =>
    case Ok(span) =>
  }

  /** An entry start survives a change that keeps every paragraph before it
      and puts an entry start at its index. */
  lemma StartKept(ps: seq<Block>, qs: seq<Block>, s: nat)
    requires RecordStartsAt(ps, s)
    requires s < |qs| && qs[..s] == ps[..s] && IsRecordStart(qs[s])
    ensures RecordStartsAt(qs, s)
  {
    var h: nat :| FirstHeadingAt(ps, h) && h < s < |ps| && IsRecordStart(ps[s])
                   && forall i :: h < i < s ==> !IsRecordStart(ps[i]);
    assert forall i :: 0 <= i < s ==> qs[i] == ps[i];
    assert FirstHeadingAt(qs, h);
  }

  /** An entry end moves with the paragraphs after it when everything the
      change puts after the start is neither a boundary nor blank. */
  lemma EndMoved(ps: seq<Block>, qs: seq<Block>, s: nat, e: nat, e': nat)
    requires RecordEndsAt(ps, s, e)
    requires s < e' <= |qs| && qs[e'..] == ps[e..]
    requires forall i :: s < i < e' ==> !IsBoundary(qs[i]) && !IsBlank(qs[i])
    ensures RecordEndsAt(qs, s, e')
  {
    assert forall i :: e' <= i < |qs| ==> qs[i] == ps[i - e' + e];
    if e < |ps| {
      assert qs[e'] == ps[e];
    }
  }

  /** The bullet paragraphs of a rewrite are neither boundaries nor blank. */
  lemma BulletsInert(ps: seq<Block>, span: Span, title: string, bs: seq<string>)
    requires span.start <= span.end <= |ps|
    ensures var qs := Spliced(ps, span, title, bs);
      forall i :: span.start < i < span.start + 1 + |bs| ==> !IsBoundary(qs[i]) && !IsBlank(qs[i])
  {
    var s := span.start;
    var qs := Spliced(ps, span, title, bs);
    SplicedShape(ps, span, title, bs);
    forall i | s < i < s + 1 + |bs|
      ensures !IsBoundary(qs[i]) && !IsBlank(qs[i])
    {
      assert qs[i] == BulletBlock(bs[i - s - 1]);
      BlockShapes(title, bs[i - s - 1]);
    }
  }

  /** Splicing a title that can open an entry, and bullets, over an entry
      gives an entry made of exactly those paragraphs. */
  lemma SplicedLocated(ps: seq<Block>, span: Span, title: string, bs: seq<string>)
    requires RecordStartsAt(ps, span.start) && RecordEndsAt(ps, span.start, span.end)
    requires IsRecordStart(TitleBlock(title))
    ensures RecordStartsAt(Spliced(ps, span, title, bs), span.start)
    ensures RecordEndsAt(Spliced(ps, span, title, bs), span.start, span.start + 1 + |bs|)
  {
    var s, e := span.start, span.end;
    var qs := Spliced(ps, span, title, bs);
    var e' := s + 1 + |bs|;
    SplicedShape(ps, span, title, bs);
    BulletsInert(ps, span, title, bs);
    StartKept(ps, qs, s);
    EndMoved(ps, qs, s, e, e');
  }

  /** After a rewrite whose title can open an entry, the new title starts
      the first entry and the inserted bullets are exactly that entry. */
  lemma RewriteCharacterised(ps: seq<Block>, title: string, bullets: seq<string>)
    requires Located(ps).Ok?
    requires IsRecordStart(TitleBlock(title))
    ensures Rewrite(ps, title, bullets).Ok?
    ensures var s := Located(ps).value.start;
      && RecordStartsAt(Rewrite(ps, title, bullets).value, s)
      && RecordEndsAt(Rewrite(ps, title, bullets).value, s, s + 1 + |FilterBullets(bullets)|)
  {
    var span := Located(ps).value;
    var bs := FilterBullets(bullets);
    assert Rewrite(ps, title, bullets) == Ok(Spliced(ps, span, title, bs));
    LocatedFound(ps);
    SplicedLocated(ps, span, title, bs);
  }

  /** After a rewrite whose title can open an entry, the scan finds the new
      entry: the title and exactly the inserted bullets. */
  lemma RewriteRelocates(ps: seq<Block>, title: string, bullets: seq<string>)
    requires Located(ps).Ok?
    requires IsRecordStart(TitleBlock(title))
    ensures Rewrite(ps, title, bullets).Ok?
    ensures Located(Rewrite(ps, title, bullets).value)
            == Ok(Span(Located(ps).value.start, Located(ps).value.start + 1 + |FilterBullets(bullets)|))
  {
    RewriteCharacterised(ps, title, bullets);
    var s := Located(ps).value.start;
    LocatedComplete(Rewrite(ps, title, bullets).value, s, s + 1 + |FilterBullets(bullets)|);
  }

  /** Rewriting the entry twice is the same as rewriting it once with the
      second title and bullets. */
  lemma RewriteTwice(ps: seq<Block>, t1: string, b1: seq<string>, t2: string, b2: seq<string>)
    requires Located(ps).Ok?
    requires IsRecordStart(TitleBlock(t1))
    ensures Rewrite(ps, t1, b1).Ok?
    ensures Rewrite(Rewrite(ps, t1, b1).value, t2, b2) == Rewrite(ps, t2, b2)
  {
    var span := Located(ps).value;
    var s, e := span.start, span.end;
    var bs1, bs2 := FilterBullets(b1), FilterBullets(b2);
    var qs := Rewrite(ps, t1, b1).value;
    RewriteRelocates(ps, t1, b1);
    SplicedShape(ps, span, t1, bs1);
    var span' := Span(s, s + 1 + |bs1|);
    assert Rewrite(qs, t2, b2) == Ok(Spliced(qs, span', t2, bs2));
    assert qs[..s] == ps[..s];
    assert qs[s + 1 + |bs1|..] == ps[e..];
  }

  /** A Word document, reduced to its list of paragraphs, edited in place. */
  class Document {
    var paragraphs: seq<Block>

    constructor(ps: seq<Block>)
      ensures paragraphs == ps
    {
      paragraphs := ps;
    }

    /** `delete_paragraph`: remove one paragraph from the body. */
    method DeleteParagraph(idx: nat)
      requires idx < |paragraphs|
      modifies this
      ensures paragraphs == old(paragraphs)[..idx] + old(paragraphs)[idx + 1..]
    {
      paragraphs := paragraphs[..idx] + paragraphs[idx + 1..];
    }

    /** `paragraphs[idx].insert_paragraph_before(...)`: a new paragraph
        takes index `idx` and the rest move up by one. */
    method InsertParagraphBefore(idx: nat, b: Block)
      requires idx < |paragraphs|
      modifies this
      ensures paragraphs == old(paragraphs)[..idx] + [b] + old(paragraphs)[idx..]
    {
      paragraphs := paragraphs[..idx] + [b] + paragraphs[idx..];
    }

    /** `add_paragraph(...)`: a new paragraph at the end of the body.
        resume.py does not call it; the corrected rewrite uses it in place of
        the insertion before `doc.paragraphs[insert_idx]` when no paragraph
        is left at that index. */
    method AddParagraph(b: Block)
      modifies this
      ensures paragraphs == old(paragraphs) + [b]
    {
      paragraphs := paragraphs + [b];
    }

    /** The deletion loop: indices `end - 1` down to `start` are removed one
        at a time, so the paragraphs outside `[start, end)` stay in order. */
    method DeleteRecord(start: nat, end: nat)
      requires start <= end <= |paragraphs|
      modifies this
      ensures paragraphs == old(paragraphs)[..start] + old(paragraphs)[end..]
    {
      var idx := end;
      while idx > start
        invariant start <= idx <= end
        invariant paragraphs == old(paragraphs)[..idx] + old(paragraphs)[end..]
      {
        idx := idx - 1;
        DeleteParagraph(idx);
        assert old(paragraphs)[..idx + 1][..idx] == old(paragraphs)[..idx];
      }
    }

    /** The insertion loop: each bullet, last first, and then the title is
        inserted before the paragraph at `at`, so they end up in order. */
    method InsertRecord(at: nat, title: string, bullets: seq<string>)
      requires at < |paragraphs|
      modifies this
      ensures paragraphs == old(paragraphs)[..at] + [TitleBlock(title)] + BulletBlocks(bullets)
                            + old(paragraphs)[at..]
    {
      var k := |bullets|;
      while k > 0
        invariant 0 <= k <= |bullets|
        invariant paragraphs == old(paragraphs)[..at] + BulletBlocks(bullets[k..]) + old(paragraphs)[at..]
      {
        k := k - 1;
        InsertParagraphBefore(at, BulletBlock(bullets[k]));
        assert bullets[k..] == [bullets[k]] + bullets[k + 1..];
        BulletBlocksAppend([bullets[k]], bullets[k + 1..]);
      }
      InsertParagraphBefore(at, TitleBlock(title));
    }

    /** Appending the title and then the bullets at the end of the body: the
        corrected placement of the new entry when the old one ran to the end
        of the document, where resume.py's insertion loop has no paragraph
        to insert before. */
    method AppendRecord(title: string, bullets: seq<string>)
      modifies this
      ensures paragraphs == old(paragraphs) + [TitleBlock(title)] + BulletBlocks(bullets)
    {
      AddParagraph(TitleBlock(title));
      for k := 0 to |bullets|
        invariant paragraphs == old(paragraphs) + [TitleBlock(title)] + BulletBlocks(bullets[..k])
      {
        AddParagraph(BulletBlock(bullets[k]));
        assert bullets[..k + 1] == bullets[..k] + [bullets[k]];
        BulletBlocksAppend(bullets[..k], [bullets[k]]);
      }
      assert bullets[..|bullets|] == bullets;
    }

    /** `replace_first_project_safely` as written. A failed scan leaves the
        document alone; an entry that runs to the end of the document is
        deleted and then the insertion fails, leaving the document cut short
        at `start`. */
    method ReplaceFirstProjectSafely(title: string, bullets: seq<string>) returns (r: Result<(), Error>)
      modifies this
      ensures r.Ok? <==> RewriteAsWritten(old(paragraphs), title, bullets).Ok?
      ensures r.Ok? ==> paragraphs == RewriteAsWritten(old(paragraphs), title, bullets).value
      ensures r.Err? ==> r.error == RewriteAsWritten(old(paragraphs), title, bullets).error
      ensures r == Err(IndexOutOfRange) ==>
                paragraphs == old(paragraphs)[..Located(old(paragraphs)).value.start]
      ensures r.Err? && r.error != IndexOutOfRange ==> paragraphs == old(paragraphs)
    {
      var newBullets := FilterBullets(bullets);
      var located := Locate(paragraphs);
      if located.Err? {
        return Err(located.error);
      }
      var span := located.value;
      DeleteRecord(span.start, span.end);
      if span.start >= |paragraphs| {
        return Err(IndexOutOfRange);
      }
      InsertRecord(span.start, title, newBullets);
      return Ok(());
    }

    /** The corrected rewrite: when nothing is left at `start` after the
        deletion, the title and bullets are appended instead. */
    method ReplaceFirstProject(title: string, bullets: seq<string>) returns (r: Result<(), Error>)
      modifies this
      ensures r.Ok? <==> Rewrite(old(paragraphs), title, bullets).Ok?
      ensures r.Ok? ==> paragraphs == Rewrite(old(paragraphs), title, bullets).value
      ensures r.Err? ==> r.error == Rewrite(old(paragraphs), title, bullets).error
                         && paragraphs == old(paragraphs)
    {
      var newBullets := FilterBullets(bullets);
      var located := Locate(paragraphs);
      if located.Err? {
        return Err(located.error);
      }
      var span := located.value;
      ghost var before := paragraphs;
      ghost var spliced := Spliced(before, span, title, newBullets);
      assert Rewrite(before, title, bullets) == Ok(spliced);
      DeleteRecord(span.start, span.end);
      ghost var rest := paragraphs;
      assert rest[..span.start] == before[..span.start] && rest[span.start..] == before[span.end..];
      if span.start < |paragraphs| {
        InsertRecord(span.start, title, newBullets);
        assert paragraphs == rest[..span.start] + [TitleBlock(title)] + BulletBlocks(newBullets) + rest[span.start..];
      } else {
        assert before[span.end..] == [] && rest == before[..span.start];
        AppendRecord(title, newBullets);
      }
      assert paragraphs == spliced;
      return Ok(());
    }
  }
}
