/** Two small documents worked through the scan and the rewrite: one whose
    first entry is closed by a bold paragraph, and one whose entry runs to
    the end of the document. */
module Scenarios {
  import opened Results
  import opened Text
  import opened Paragraphs
  import opened Locator
  import opened Rewriter

  /** The heading paragraph itself is a heading. */
  lemma HeadingParagraph(b: Block)
    requires b.text == HEADING
    ensures IsHeading(b)
  {
    UpperKeepsCapitals(HEADING);
    assert OccursAt(Upper(b.text), HEADING, 0);
  }

  const HEADING_PARAGRAPH := Block(HEADING, false, Original(0))
  const OLD_TITLE := Block("OLD TITLE", true, Original(1))
  const OLD_BULLET_1 := Block("\U{2022} old bullet 1", false, Original(2))
  const OLD_BULLET_2 := Block("\U{2022} old bullet 2", false, Original(2))
  const NEXT_SECTION := Block("NEXT SECTION", true, Original(1))

  /** A heading, an entry of a bold title and two bullets, and the bold title
      of the next part of the document. */
  const CLOSED_DOC: seq<Block> := [HEADING_PARAGRAPH, OLD_TITLE, OLD_BULLET_1, OLD_BULLET_2, NEXT_SECTION]

  /** The entry of `CLOSED_DOC` is paragraphs 1 to 3: it ends at the bold
      title of the next part. */
  lemma ClosedEntryLocated()
    ensures Located(CLOSED_DOC) == Ok(Span(1, 4))
  {
    var ps := CLOSED_DOC;
    HeadingParagraph(ps[0]);
    assert |Upper(ps[1].text)| < |HEADING| && !IsSpace(ps[1].text[0]);
    assert FirstHeadingAt(ps, 0);
    assert RecordStartsAt(ps, 1);
    assert !IsBoundary(ps[2]) && !IsBoundary(ps[3]);
    assert |Upper(ps[4].text)| < |HEADING|;
    assert RecordEndsAt(ps, 1, 4);
    LocatedComplete(ps, 1, 4);
  }

  /** Splicing the new title and two bullets over paragraphs 1 to 3 of
      `CLOSED_DOC`. */
  lemma ClosedSplice()
    ensures Spliced(CLOSED_DOC, Span(1, 4), "NEW TITLE", ["Did X", "Did Y"])
            == [HEADING_PARAGRAPH, TitleBlock("NEW TITLE"), BulletBlock("Did X"), BulletBlock("Did Y"),
                NEXT_SECTION]
  {
    var ps := CLOSED_DOC;
    assert BulletBlocks(["Did X", "Did Y"]) == [BulletBlock("Did X"), BulletBlock("Did Y")];
    assert ps[..1] == [HEADING_PARAGRAPH] && ps[4..] == [NEXT_SECTION];
  }

  /** The rewrite of `CLOSED_DOC` puts the new title and bullets in place of
      paragraphs 1 to 3 and keeps the rest; the code as written agrees. */
  lemma ClosedEntry()
    ensures Located(CLOSED_DOC) == Ok(Span(1, 4))
    ensures Rewrite(CLOSED_DOC, "NEW TITLE", ["Did X", "Did Y"])
            == Ok([HEADING_PARAGRAPH, TitleBlock("NEW TITLE"), BulletBlock("Did X"), BulletBlock("Did Y"),
                   NEXT_SECTION])
    ensures RewriteAsWritten(CLOSED_DOC, "NEW TITLE", ["Did X", "Did Y"])
            == Rewrite(CLOSED_DOC, "NEW TITLE", ["Did X", "Did Y"])
  {
    ClosedEntryLocated();
    FilterKeepsTrimmed(["Did X", "Did Y"]);
    ClosedSplice();
  }

  const TITLE_ONLY := Block("TITLE", false, Original(1))
  const ONLY_BULLET := Block("\U{2022} b1", false, Original(2))

  /** A heading and an entry with no bold paragraph and no blank paragraph
      after its title. */
  const OPEN_DOC: seq<Block> := [HEADING_PARAGRAPH, TITLE_ONLY, ONLY_BULLET]

  /** The entry of `OPEN_DOC` runs to the end of the document: no
      paragraph after its start is bold or blank. */
  lemma OpenEntryLocated()
    ensures Located(OPEN_DOC) == Ok(Span(1, 3))
  {
    var ps := OPEN_DOC;
    HeadingParagraph(ps[0]);
    assert |Upper(ps[1].text)| < |HEADING| && !IsSpace(ps[1].text[0]);
    assert FirstHeadingAt(ps, 0);
    assert RecordStartsAt(ps, 1);
    assert !IsBoundary(ps[2]) && !IsSpace(ps[2].text[0]);
    assert RecordEndsAt(ps, 1, 3);
    LocatedComplete(ps, 1, 3);
  }

  /** Splicing the new title and a bullet over paragraphs 1 and 2 of
      `OPEN_DOC`. */
  lemma OpenSplice()
    ensures Spliced(OPEN_DOC, Span(1, 3), "NEW TITLE", ["Did X"])
            == [HEADING_PARAGRAPH, TitleBlock("NEW TITLE"), BulletBlock("Did X")]
  {
    var ps := OPEN_DOC;
    assert BulletBlocks(["Did X"]) == [BulletBlock("Did X")];
    assert ps[..1] == [HEADING_PARAGRAPH] && ps[3..] == [];
  }

  /** The code as written deletes the entry of `OPEN_DOC` and then fails to
      insert; the corrected rewrite appends the new title and bullet. */
  lemma OpenEntry()
    ensures Located(OPEN_DOC) == Ok(Span(1, 3))
    ensures RewriteAsWritten(OPEN_DOC, "NEW TITLE", ["Did X"]) == Err(IndexOutOfRange)
    ensures Rewrite(OPEN_DOC, "NEW TITLE", ["Did X"])
            == Ok([HEADING_PARAGRAPH, TitleBlock("NEW TITLE"), BulletBlock("Did X")])
  {
    OpenEntryLocated();
    FilterKeepsTrimmed(["Did X"]);
    OpenSplice();
  }
}
