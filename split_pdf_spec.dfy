/**
 * split-pdf-spec.py: the PDF 1.7 text cut into one page per chapter,
 * slicing with the table's `end` as given and Markdown links to
 * `PDF-Spec-Index`, with no "Part of" line.
 */
module SplitPdfSpec {
  import opened Wrappers
  import opened Text
  import opened PySlice
  import opened WikiPage
  import opened PageChain

  const SpecLayout: Layout := Layout(Markdown, "PDF-Spec-Index")

  /** `CHAPTERS`: `(start_line, end_line_exclusive, filename, title)`, 1-based. */
  const Chapters: seq<Row> := [
    Row(1, 196, "PDF-Spec-Front-Matter", "PDF 1.7 Specification - Front Matter"),
    Row(196, 208, "PDF-Spec-01-Scope", "PDF Spec Chapter 1: Scope"),
    Row(208, 228, "PDF-Spec-02-Conformance", "PDF Spec Chapter 2: Conformance"),
    Row(228, 404, "PDF-Spec-03-Normative-References", "PDF Spec Chapter 3: Normative References"),
    Row(404, 700, "PDF-Spec-04-Terms-and-Definitions", "PDF Spec Chapter 4: Terms and Definitions"),
    Row(700, 710, "PDF-Spec-05-Notation", "PDF Spec Chapter 5: Notation"),
    Row(710, 714, "PDF-Spec-06-Version-Designations", "PDF Spec Chapter 6: Version Designations"),
    Row(714, 3316, "PDF-Spec-07-Syntax", "PDF Spec Chapter 7: Syntax"),
    Row(3316, 6309, "PDF-Spec-08-Graphics", "PDF Spec Chapter 8: Graphics"),
    Row(6309, 7917, "PDF-Spec-09-Text", "PDF Spec Chapter 9: Text"),
    Row(7917, 8482, "PDF-Spec-10-Rendering", "PDF Spec Chapter 10: Rendering"),
    Row(8482, 9591, "PDF-Spec-11-Transparency", "PDF Spec Chapter 11: Transparency"),
    Row(9591, 12501, "PDF-Spec-12-Interactive-Features", "PDF Spec Chapter 12: Interactive Features"),
    Row(12501, 13876, "PDF-Spec-13-Multimedia-Features", "PDF Spec Chapter 13: Multimedia Features"),
    Row(13876, 16141, "PDF-Spec-14-Document-Interchange", "PDF Spec Chapter 14: Document Interchange"),
    Row(16141, 18369, "PDF-Spec-Annexes", "PDF Spec Annexes A-L")
  ]

  /** `CHAPTERS` runs without gap or overlap from line 1 up to line 18369 (exclusive). */
  lemma ChaptersTile()
    ensures Tiles(Chapters, 1, 18369)
  {
  }

  /**
   * `main`: one page per chapter, in table order, read without clamping;
   * the count it reports adds the index page to the chapter pages.
   */
  method SplitSpec(lines: seq<string>) returns (pages: seq<WikiFile>, pageCount: nat)
    ensures pages == PagesFor(lines, Chapters, SpecLayout, None, false)
    ensures forall i :: 0 <= i < |Chapters| ==> pages[i].name == Chapters[i].filename + ".md"
    ensures pageCount == |pages| + 1 == 17
  {
    var created;
    pages, created := SplitRows(lines, Chapters, SpecLayout, None, false);
    pageCount := |Chapters| + 1;
  }

  /**
   * Read back to back, the chapter bodies are the file's first 18368 lines,
   * each once and in order; a shorter file is taken whole.
   */
  lemma ChaptersCoverSpec(lines: seq<string>)
    ensures AllBodyLines(lines, Chapters, false) == lines[..Min(|lines|, 18368)]
    ensures Concat(seq(|Chapters|, i requires 0 <= i < |Chapters| => Concat(BodyLines(lines, Chapters[i], false))))
         == Concat(lines[..Min(|lines|, 18368)])
  {
    ChaptersTile();
    UnclampedFromFirstLine(lines, Chapters, 18369);
  }

  /**
   * Over a whole text read with `readlines`: when the text has no more lines
   * than the last chapter reaches, the chapter bodies put back together give
   * the text itself.
   */
  lemma ChaptersCoverText(t: string)
    requires |ReadLines(t)| <= 18368
    ensures Concat(seq(|Chapters|, i requires 0 <= i < |Chapters| => Concat(BodyLines(ReadLines(t), Chapters[i], false))))
         == t
  {
    var lines := ReadLines(t);
    ChaptersCoverSpec(lines);
    assert lines[..Min(|lines|, 18368)] == lines;
  }

  /** Every chapter page links into the same table, with open ends at the front matter and the annexes. */
  lemma ChapterChain()
    ensures Prev(Chapters, 0) == None && Next(Chapters, 15) == None
    ensures Next(Chapters, 0) == Some("PDF-Spec-01-Scope")
    ensures Prev(Chapters, 15) == Some("PDF-Spec-14-Document-Interchange")
  {
  }
}
