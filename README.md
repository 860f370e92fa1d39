# Resume editor core, modelled in Dafny

`resume.py` is a small Streamlit app. It reads a Word resume, asks a text
generator for bullet points about a new project, and puts that project in
place of the first entry under the resume's "PROJECT EXPERIENCE" heading.
This project models the part of it that is plain logic, with proofs:

- **Bullet cleanup** (`clean_bullets`) turns generated free text into at most three
  bullets. It splits the text into lines, strips them, removes leading glyph
  characters and hyphens, and drops a one-digit enumerator such as `1. `.
  `generate_bullet_points` uses a fixed pair of bullets when fewer than two survive
  (module `Bullets`).
- **Section locator** (the scan in `replace_first_project_safely`) finds:
  - the first heading paragraph;
  - the first non-blank paragraph after it, which is the start of the entry;
  - the end of the entry, which is the next paragraph whose first run is bold;
    failing that, the next blank paragraph; failing that, the end of the document.

  It has two distinct errors (module `Locator`).
- **Record rewriter** (the rest of `replace_first_project_safely`) drops blank bullets
  and trims the others. It deletes the entry with a reverse loop, then inserts a bold
  title paragraph and one bullet paragraph per bullet at the entry's start
  (module `Rewriter`, class `Document`).
- **Text extraction** (`extract_text_from_docx`) joins the texts of the non-blank
  paragraphs with newlines (module `Paragraphs`).

The supporting modules hold the Python idioms the code uses:

- `Results` holds `Option` and `Result`.
- `Lists` holds list comprehensions, `[:n]` and the first-match scan.
- `Text` holds `strip`, `lstrip`, `upper`, `in`, `splitlines` and `join`.

`Scenarios` works two small documents through the locator and the rewriter.

A paragraph is a `Block`, with three parts:

- its text;
- whether its first run is bold, which stands for `para.runs and para.runs[0].bold`;
- an opaque formatting tag, which tells title and bullet formatting apart from
  whatever the document had.

The scan loops and the deletion and insertion loops are methods with loop invariants.
Each method is proved against a function (`Locate` against `Located`, the
`Document` methods against `Rewrite` and `RewriteAsWritten`). The properties of
those functions are lemmas.

## Model

| member | source | states |
|---|---|---|
| `Lists.Take` | resume.py:64 | `xs[:n]` is a prefix of `xs` whose length is the smaller of `n` and `len(xs)` |
| `Lists.FirstFrom` | resume.py:131-156 | the scan for the first match from `i` on: no element before the result matches, and the element at the result matches unless the result is the length |
| `Lists.FirstFromUnique` | resume.py:131-156 | any index with no match before it and a match at it (or at the end) is the one the scan finds |
| `Lists.Comprehension` | resume.py:54 | `[f(x) for x in xs if keep(x)]`, also the filters of lines 125 and 175 (a definition; no contract): pinned by `Lists.ComprehensionPicks` |
| `Lists.ComprehensionPicks` | resume.py:54 | a filtering comprehension keeps exactly the elements that pass, maps each one, and keeps their order |
| `Lists.TwoComprehensionsPick` | resume.py:54-64 | the first `n` results of two comprehensions in turn come from the input in order; an input element not named before the last named one fails a test |
| `Text.LStrip` | resume.py:58 | `lstrip(chars)` leaves a string that does not start with a stripped character |
| `Text.LStripSlice` | resume.py:58 | `lstrip` removes a prefix, and each removed character is one of the stripped characters |
| `Text.RStrip` | resume.py:58 | the right-hand half of `strip` leaves a string that does not end in whitespace |
| `Text.RStripSlice` | resume.py:58 | that half removes a suffix made only of whitespace |
| `Text.Strip` | resume.py:54 | `strip()` gives a trimmed string and leaves a trimmed string unchanged |
| `Text.StripSlice` | resume.py:54 | `strip()` returns a slice of its input with only whitespace on both sides of it |
| `Text.StripBlank` | resume.py:54 | `strip()` is empty exactly when every character is whitespace |
| `Text.StripMiddle` | resume.py:60 | stripping whitespace, a non-empty trimmed middle, and whitespace gives the middle |
| `Text.Upper` | resume.py:132 | the ASCII-only `upper()` keeps the length |
| `Text.UpperKeepsCapitals` | resume.py:132 | upper-casing leaves a string without lower-case letters unchanged |
| `Text.Contains` | resume.py:132 | `sub in s`: `sub` occurs in `s` at some index (a definition; no contract) |
| `Text.Join` | resume.py:175 | `sep.join(xs)` (a definition; no contract): pinned by `Text.SplitLinesJoin`, `Text.JoinSplitLines` and `Text.JoinSplitCrlfLines` |
| `Text.SplitLines` | resume.py:54 | `splitlines()` gives lines without line breaks, and no lines exactly for the empty string |
| `Text.JoinSplitLines` | resume.py:54 | a string whose only line breaks are single `\n`s, not ending with one, is given back by `"\n".join` of its `splitlines()`: the lines are exactly the text between the breaks |
| `Text.JoinSplitCrlfLines` | resume.py:54 | a string whose line breaks are all `\r\n` pairs, not ending with one, is given back by `"\r\n".join` of its `splitlines()`: each pair is one boundary |
| `Text.SplitLinesJoin` | resume.py:175 | splitting `"\n".join(xs)` into lines gives `xs` back when its strings are non-empty one-line strings |
| `Bullets.StrippedLines` | resume.py:54 | `[ln.strip() for ln in text.splitlines() if ln.strip()]` (a definition; no contract): pinned through `Lists.ComprehensionPicks` and used by `Bullets.CleanedBulletsFollowLines` |
| `Bullets.CleanLine` | resume.py:58-60 | the cleanup of one line gives a trimmed string |
| `Bullets.DropEnumerator` | resume.py:59-60 | dropping the enumerator keeps a trimmed string trimmed |
| `Bullets.CleanLineChars` | resume.py:58-60 | the cleanup only removes characters |
| `Bullets.CleanedBullets` | resume.py:50-64 | `clean_bullets` returns at most three bullets |
| `Bullets.CleanBullets` | resume.py:50-64 | the loop over the stripped lines returns exactly the cleaned, non-empty lines, the first three of them |
| `Bullets.CleanedBulletsUsable` | resume.py:54-64 | every bullet returned is non-empty, trimmed and on one line |
| `Bullets.BulletUsable` | resume.py:54-62 | one returned bullet is non-empty, trimmed and on one line |
| `Bullets.CleanedBulletsFollowLines` | resume.py:54-64 | each bullet is the cleanup of a source line; the lines are in increasing order; every line skipped before the third bullet cleans to nothing |
| `Bullets.PlainLineKept` | resume.py:58-62 | a non-empty trimmed line with no leading glyph, hyphen or one-digit enumerator comes out of cleanup unchanged |
| `Bullets.GlyphsIgnored` | resume.py:58 | the three glyph characters of the bullet mark in front of a line do not change the cleaned line |
| `Bullets.SpaceIgnored` | resume.py:58 | whitespace in front of text that starts with neither a glyph, a hyphen nor whitespace does not change the cleaned line, since `strip()` removes it after the two `lstrip`s |
| `Bullets.MarkedPlainLine` | resume.py:58-62 | a plain line behind the bullet mark and a space, as `format_bullet` writes it and the generator is asked to, cleans back to the plain line |
| `Bullets.HyphenPlainLine` | resume.py:58-62 | a plain line behind `- ` cleans back to the plain line |
| `Bullets.MarkedLineCleaned` | resume.py:54-62 | such a marked line is a non-blank one-line line that `strip()` keeps and cleanup turns into the plain line |
| `Bullets.MarkedLinesCleaned` | resume.py:50-64 | text made of plain one-line lines, each behind the bullet mark and a space, cleans to exactly the first three of those lines, in order |
| `Bullets.GlyphIgnored` | resume.py:58 | a leading glyph character does not change the cleaned line |
| `Bullets.HyphenIgnored` | resume.py:58 | a leading hyphen that no glyph follows does not change the cleaned line |
| `Bullets.CleanEnumerated` | resume.py:59-60 | a line made of one digit, `.` or `)`, a space, whitespace, a non-empty trimmed text and whitespace cleans to that text |
| `Bullets.EnumeratorDropped` | resume.py:59-60 | a line `d. text` or `d) text` with one digit `d` cleans to the stripped text |
| `Bullets.FallbackUsable` | resume.py:90-94 | both fallback bullets are non-empty, trimmed and on one line |
| `Bullets.FallbackFirstUsable` | resume.py:92 | the first fallback bullet is usable |
| `Bullets.FallbackSecondUsable` | resume.py:93 | the second fallback bullet is usable |
| `Bullets.GenerateBulletPoints` | resume.py:87-96 | always 2 or 3 usable bullets; exactly the fallback pair when cleanup leaves fewer than 2, otherwise exactly the cleaned bullets |
| `Paragraphs.IsBlank` | resume.py:152 | `not para.text.strip()`, also the test of lines 136 and 175: every character is whitespace (a definition; `Text.StripBlank` ties it to `strip()`) |
| `Paragraphs.TitleBlock` | resume.py:108-114 | `format_title` on a new paragraph: one bold run holding the title (a definition; pinned by `Paragraphs.BlockShapes`) |
| `Paragraphs.BulletBlock` | resume.py:116-123 | `format_bullet` on a new paragraph: one run, not bold, holding the bullet mark, a space and the bullet (a definition; pinned by `Paragraphs.BlockShapes` and `Bullets.MarkedPlainLine`) |
| `Paragraphs.BulletBlocks` | resume.py:163-165 | one bullet paragraph per bullet, in order (a definition; pinned by `Paragraphs.BulletBlocksAppend`) |
| `Paragraphs.ExtractText` | resume.py:173-175 | `extract_text_from_docx`: the non-blank paragraph texts joined with newlines (a definition; pinned by `Paragraphs.ExtractTextLines`) |
| `Paragraphs.BlockShapes` | resume.py:108-123 | a title paragraph starts with a bold run and holds the title; a bullet paragraph does not start bold, starts with the bullet mark, and is never blank |
| `Paragraphs.BulletBlocksAppend` | resume.py:163-165 | the bullet paragraphs of a concatenation are the concatenation of the bullet paragraphs |
| `Paragraphs.ExtractTextLines` | resume.py:173-175 | when no paragraph holds a line break, the lines of the extracted text are the texts of the non-blank paragraphs, in order |
| `Locator.IsHeading` | resume.py:132 | `"PROJECT EXPERIENCE" in para.text.upper()` (a definition; no contract) |
| `Locator.IsRecordStart` | resume.py:136 | `para.text.strip()` for a paragraph that is not a heading (a definition; no contract) |
| `Locator.IsBoundary` | resume.py:141 | `para.runs and para.runs[0].bold` for a paragraph that is not a heading (a definition; no contract) |
| `Locator.Located` | resume.py:131-156 | a found entry satisfies `0 < start < end <= len`; the index error is never a scan result |
| `Locator.EntryEnd` | resume.py:140-156 | the end of an entry lies after its start and within the document |
| `Locator.EntryEndExact` | resume.py:140-156 | an index is the end of the entry at `start` (first bold non-heading paragraph after it, else first blank one, else the length) exactly when it is `EntryEnd` |
| `Locator.LocatedErrors` | resume.py:131-148 | section-not-found exactly when no paragraph is a heading; entry-not-found exactly when nothing after the first heading is non-blank and not a heading |
| `Locator.LocatedFound` | resume.py:131-156 | `start` is the first non-blank, non-heading paragraph after the first heading; `end` is the first bold non-heading paragraph after it, else the first blank one, else the length |
| `Locator.LocatedComplete` | resume.py:131-156 | conversely, any `start` and `end` so described are what the scan returns |
| `Locator.StartExact` | resume.py:131-138 | an entry start is the first non-blank, non-heading paragraph after the first heading, which exists |
| `Locator.LocatedAt` | resume.py:131-156 | with a heading found first and an entry start after it, the scan returns that start and its `EntryEnd` |
| `Locator.FirstBlankAfter` | resume.py:150-156 | the `for ... else` fallback returns the first blank paragraph after the start, or the length |
| `Locator.Locate` | resume.py:127-156 | the flag-setting loop with `continue` and `break`, followed by the `for ... else` fallback, returns exactly `Located` |
| `Rewriter.FilterBullets` | resume.py:125 | `[bp.strip() for bp in new_bullets if bp and bp.strip()]` (a definition; pinned by `Rewriter.FilteredBullets`) |
| `Rewriter.FilteredBullets` | resume.py:125 | the bullet filter keeps the stripped form of exactly the non-blank bullets, in order, each non-empty and trimmed |
| `Rewriter.FilterKeepsTrimmed` | resume.py:125 | bullets that are already non-empty and trimmed pass the filter unchanged |
| `Rewriter.Spliced` | resume.py:158-168 | the deletion of `[start, end)` and the insertion of the title and bullets at `start` (a definition; pinned by `Rewriter.SplicedShape`) |
| `Rewriter.Rewrite` | resume.py:125-168 | the corrected rewrite: the scan's error, or the spliced document with the filtered bullets (a definition; pinned by `Rewriter.RewriteFails` and `Rewriter.RewriteResult`) |
| `Rewriter.RewriteAsWritten` | resume.py:125-168 | the rewrite as written: like `Rewriter.Rewrite`, but the index error when the entry runs to the end (a definition; pinned by `Rewriter.AsWrittenFailsAtEnd`) |
| `Rewriter.SplicedShape` | resume.py:158-168 | the result is the paragraphs before `start`, the title, one paragraph per bullet in order, then the paragraphs from `end` on; its length is `len - (end - start) + 1 + len(bullets)` |
| `Rewriter.RewriteFails` | resume.py:145-148 | the rewrite fails exactly when the scan fails, and with the scan's error |
| `Rewriter.RewriteResult` | resume.py:125-168 | when the scan succeeds, the rewrite succeeds with the document of the shape above, with the filtered bullets |
| `Rewriter.AsWrittenFailsAtEnd` | resume.py:150-167 | the code as written fails with the index error exactly when the entry runs to the end of the document, and agrees with the corrected rewrite otherwise |
| `Rewriter.StartKept` | resume.py:131-138 | an entry start survives a change that keeps the paragraphs before it |
| `Rewriter.EndMoved` | resume.py:140-156 | an entry end moves with the paragraphs after it when nothing inserted is a boundary or blank |
| `Rewriter.BulletsInert` | resume.py:116-123 | inserted bullet paragraphs are neither boundaries nor blank |
| `Rewriter.SplicedLocated` | resume.py:131-168 | after the splice of a non-blank, non-heading title, the title's index is an entry start and the entry ends right after the inserted bullets |
| `Rewriter.RewriteCharacterised` | resume.py:131-168 | the rewritten document has an entry start at the old start, ending right after the inserted bullets |
| `Rewriter.RewriteRelocates` | resume.py:131-168 | when the new title is non-blank and not a heading, scanning the rewritten document finds the span `[start, start + 1 + len(bullets))` |
| `Rewriter.RewriteTwice` | resume.py:131-168 | when the first title is non-blank and not a heading, rewriting twice gives the same document as rewriting once with the second title and bullets |
| `Rewriter.Document.constructor` | resume.py:102 | the document holds the given paragraphs |
| `Rewriter.Document.DeleteParagraph` | resume.py:103-106 | one paragraph is removed and the others keep their order |
| `Rewriter.Document.InsertParagraphBefore` | resume.py:164 | a new paragraph takes index `idx` and the rest move up by one |
| `Rewriter.Document.AddParagraph` | resume.py:167 | corrected rewrite: a new paragraph is appended at the end of the body, used instead of the insertion at line 167 when no paragraph is left at `insert_idx` (resume.py itself never appends) |
| `Rewriter.Document.DeleteRecord` | resume.py:158-159 | the reverse deletion loop leaves the paragraphs before `start`, then those from `end` on |
| `Rewriter.Document.InsertRecord` | resume.py:161-168 | inserting the bullets last-first and then the title before index `at` puts the title and then the bullets, in order, at `at` |
| `Rewriter.Document.AppendRecord` | resume.py:161-168 | corrected rewrite: the title and then the bullets are appended at the end, used instead of the insertion loop when the entry ran to the end of the document (resume.py itself never appends) |
| `Rewriter.Document.ReplaceFirstProjectSafely` | resume.py:102-170 | the function as written: the scan's errors leave the document unchanged; an entry at the end is deleted and then the index error is raised; otherwise the document becomes `RewriteAsWritten` |
| `Rewriter.Document.ReplaceFirstProject` | resume.py:102-170 | the corrected function: the document becomes `Rewrite` of the old one, and a failed scan leaves it unchanged |
| `Scenarios.HeadingParagraph` | resume.py:132 | a paragraph whose text is the heading phrase is a heading |
| `Scenarios.ClosedEntryLocated` | resume.py:131-156 | for heading, bold title, two bullets and a bold next title, the scan finds `[1, 4)` |
| `Scenarios.ClosedSplice` | resume.py:158-168 | the splice of that document gives heading, new title, two bullets, next title |
| `Scenarios.ClosedEntry` | resume.py:131-168 | for heading, bold title, two bullets and a bold next title, the entry is `[1, 4)`, and the rewrite gives heading, new title, two bullets, next title |
| `Scenarios.OpenEntryLocated` | resume.py:131-156 | for heading, title and one bullet with no boundary, the scan finds `[1, 3)` |
| `Scenarios.OpenSplice` | resume.py:158-168 | the splice of that document appends the new title and bullets after the heading |
| `Scenarios.OpenEntry` | resume.py:131-168 | for heading, title and one bullet with no boundary, the entry is `[1, 3)`; the code as written fails with the index error, while the corrected rewrite appends |

## Left out

- The Streamlit page, buttons, file upload and download, and session state are left out. They are user interface.
- Secrets and the OpenAI and Anthropic clients are left out.
- The OpenAI bullet request and its prompt are left out. The generated text is the `content` parameter of `Bullets.GenerateBulletPoints`. `None` content reads as the empty string.
- The Claude feedback call, `list_anthropic_models` and its cache are left out. They are network calls.
- python-docx is not part of this model:
  - loading and saving documents;
  - the XML removal in `delete_paragraph`;
  - `insert_paragraph_before`.

  A document is its list of `Block`s. `insert_paragraph_before("")` followed by `format_title` or `format_bullet` is one inserted `TitleBlock` or `BulletBlock`.
- Font sizes, indents, alignment and spacing are opaque formatting tags. They are floating-point lengths that the code only writes.
- `Text.Upper` is ASCII only, and keeps the length. Python's `upper()` can lengthen a string (`"ß".upper()` is `"SS"`, `"ﬁ".upper()` is `"FI"`). That does not change the heading test, since no such expansion produces consecutive letters of "PROJECT EXPERIENCE". Python's `upper()` also maps a few non-ASCII letters to ASCII ones (dotless `ı` to `I`, long `ſ` to `S`), so a heading spelt with them is not recognised here.
- `Text.Upper` states only that the length is kept. Beyond that, how it maps each character is left to its definition.
- `Text.SplitLines`: the lines are tied to the input text by `Text.JoinSplitLines` and `Text.JoinSplitCrlfLines` for text whose line breaks are `\n` or `\r\n`. For the other break characters, the model proves only that no line holds a break.
- `Text.IsDigit` is ASCII only. Python's `isdigit()` also accepts other Unicode digits.
- `strip()`, `isspace()` and `splitlines()` use Python's exact sets of whitespace and line-break characters.
- A `\r\n` pair counts as one line break, as in Python.
- The bullet glyph follows the code: the three characters U+201A U+00C4 U+00A2, which are the UTF-8 bytes of "•" read as Mac Roman. `clean_bullets` strips any run of them, and `format_bullet` writes them before each bullet. A real "•" at the start of a generated line is therefore not stripped.
- `Locator.Located`: its own contract states only the bounds of the span. The full description of `start` and `end` is in `Locator.LocatedFound` and `Locator.LocatedComplete`.
- The boundary test is the bold-first-run test of resume.py:141; no other boundary test is modelled.

## Findings

| source | as written | input that shows it | evidently intended | confidence | as-written member | corrected member |
|---|---|---|---|---|---|---|
| resume.py:155-167 | when no bold paragraph and no blank paragraph follows the entry, `end_idx` becomes `len(doc.paragraphs)`. After the deletion, no paragraph is left at `insert_idx`, so `doc.paragraphs[insert_idx]` raises `IndexError` with the entry already deleted | paragraphs "PROJECT EXPERIENCE", "TITLE", "• b1", none bold, no blank one | the new title and bullets take the entry's place at the end of the document | not executed | `Rewriter.RewriteAsWritten`, `Rewriter.Document.ReplaceFirstProjectSafely`, counterexample `Scenarios.OpenEntry` | `Rewriter.Rewrite`, `Rewriter.Document.ReplaceFirstProject`, with `Rewriter.RewriteRelocates` and `Rewriter.RewriteTwice` |
