/** The paragraphs of a Word document as the resume editor sees them, the two
    kinds of paragraph it writes (a project title and a bullet), and the
    flattening of a document into plain text (`extract_text_from_docx`). */
module Paragraphs {
  import opened Lists
  import opened Text

  /** The formatting of a paragraph, kept opaque: font size, alignment,
      indents and spacing are only written, never read. `Original` stands for
      whatever a paragraph of the loaded document carries. */
  datatype Format = Original(tag: nat) | TitleFormat | BulletFormat

  /** One paragraph: its text, whether its first run is bold (false when it
      has no runs at all), and its formatting. */
  datatype Block = Block(text: string, firstRunBold: bool, fmt: Format)

  /** `not para.text.strip()`: a paragraph whose text is all whitespace,
      which is exactly when its stripped text is empty (`StripBlank`). */
  predicate IsBlank(b: Block) {
    forall k :: 0 <= k < |b.text| ==> IsSpace(b.text[k])
  }

  /** The text `format_bullet` puts in front of a bullet: the three characters
      U+201A U+00C4 U+00A2 that resume.py uses as its bullet glyph, and a
      space. */
  const BULLET_MARK: string := "\U{201A}\U{C4}\U{A2} "

  /** `insert_paragraph_before("")` followed by `format_title`: one bold run
      holding the title, in the title formatting. */
  function TitleBlock(title: string): Block {
    Block(title, true, TitleFormat)
  }

  /** `insert_paragraph_before("")` followed by `format_bullet`: one run that
      is not bold, holding the marked bullet, in the bullet formatting. */
  function BulletBlock(bullet: string): Block {
    Block(BULLET_MARK + bullet, false, BulletFormat)
  }

  /** One bullet paragraph per bullet, in order. */
  function BulletBlocks(bullets: seq<string>): seq<Block> {
    seq(|bullets|, k requires 0 <= k < |bullets| => BulletBlock(bullets[k]))
  }

  /** A title paragraph starts with a bold run; a bullet paragraph does not,
      and it is never blank, since its mark is not whitespace. */
  lemma BlockShapes(title: string, bullet: string)
    ensures TitleBlock(title).firstRunBold && TitleBlock(title).text == title
    ensures !BulletBlock(bullet).firstRunBold
    ensures !IsBlank(BulletBlock(bullet))
    ensures BulletBlock(bullet).text[..|BULLET_MARK|] == BULLET_MARK
  {
    var t := BulletBlock(bullet).text;
    assert t[0] == '\U{201A}' && !IsSpace(t[0]);
  }

  /** `BulletBlocks` of a concatenation. */
  lemma BulletBlocksAppend(a: seq<string>, b: seq<string>)
    ensures BulletBlocks(a + b) == BulletBlocks(a) + BulletBlocks(b)
  {
  }

  function BlockText(b: Block): string {
    b.text
  }

  predicate HasText(b: Block) {
    !IsBlank(b)
  }

  /** `extract_text_from_docx`: the texts of the paragraphs that are not
      blank, joined with newlines. */
  function ExtractText(ps: seq<Block>): string {
    Join(Comprehension(ps, BlockText, HasText), "\n")
  }

  /** When no paragraph holds a line break, splitting the extracted text into
      lines gives back exactly the texts of the non-blank paragraphs, in
      document order. */
  lemma ExtractTextLines(ps: seq<Block>)
    requires forall k :: 0 <= k < |ps| ==> SingleLine(ps[k].text)
    ensures SplitLines(ExtractText(ps)) == Comprehension(ps, BlockText, HasText)
  {
    var texts := Comprehension(ps, BlockText, HasText);
    forall k | 0 <= k < |texts|
      ensures texts[k] != [] && SingleLine(texts[k])
    {
      var i := ComprehensionElement(ps, BlockText, HasText, k);
      assert Strip([]) == [];
    }
    SplitLinesJoin(texts);
  }
}
