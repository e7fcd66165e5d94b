/**
 * split-pdf20-spec.py: the PDF 2.0 text cut into one page per chapter and
 * one per annex, all in a single navigation chain under `PDF20-Spec-Index`.
 */
module SplitPdf20Spec {
  import opened Wrappers
  import opened Text
  import opened PySlice
  import opened WikiPage
  import opened PageChain

  const IndexPage: string := "PDF20-Spec-Index"
  const Pdf20Layout: Layout := Layout(WikiLinks, IndexPage)

  /** The `chapters` table of `split_chapters`. */
  const Chapters: seq<Row> := [
    Row(1, 1148, "PDF20-Spec-Front-Matter", "PDF 2.0 - Front Matter"),
    Row(1148, 1187, "PDF20-Spec-01-Scope", "Chapter 1: Scope"),
    Row(1187, 1380, "PDF20-Spec-02-Normative-References", "Chapter 2: Normative References"),
    Row(1380, 1737, "PDF20-Spec-03-Terms", "Chapter 3: Terms and Definitions"),
    Row(1737, 1837, "PDF20-Spec-04-Notation", "Chapter 4: Notation"),
    Row(1837, 1858, "PDF20-Spec-05-Version", "Chapter 5: Version Designations"),
    Row(1858, 1954, "PDF20-Spec-06-Conformance", "Chapter 6: Conformance"),
    Row(1954, 11086, "PDF20-Spec-07-Syntax", "Chapter 7: Syntax"),
    Row(11086, 21413, "PDF20-Spec-08-Graphics", "Chapter 8: Graphics"),
    Row(21413, 26177, "PDF20-Spec-09-Text", "Chapter 9: Text"),
    Row(26177, 27873, "PDF20-Spec-10-Rendering", "Chapter 10: Rendering"),
    Row(27873, 31242, "PDF20-Spec-11-Transparency", "Chapter 11: Transparency"),
    Row(31242, 45341, "PDF20-Spec-12-Interactive", "Chapter 12: Interactive Features"),
    Row(45341, 53394, "PDF20-Spec-13-Multimedia", "Chapter 13: Multimedia"),
    Row(53394, 63701, "PDF20-Spec-14-Document", "Chapter 14: Document Interchange")
  ]

  /** The `annexes` table of `split_chapters`. */
  const Annexes: seq<Row> := [
    Row(63701, 64323, "PDF20-Spec-Annex-A", "Annex A: Operator Summary"),
    Row(64323, 64703, "PDF20-Spec-Annex-B", "Annex B: Type 4 Function Operators"),
    Row(64703, 64883, "PDF20-Spec-Annex-C", "Annex C: Maximising Portability"),
    Row(64883, 74341, "PDF20-Spec-Annex-D", "Annex D: Character Sets and Encodings"),
    Row(74341, 74456, "PDF20-Spec-Annex-E", "Annex E: Extending PDF"),
    Row(74456, 76271, "PDF20-Spec-Annex-F", "Annex F: Linearized PDF"),
    Row(76271, 76470, "PDF20-Spec-Annex-G", "Annex G: Linearized PDF Access"),
    Row(76470, 78341, "PDF20-Spec-Annex-H", "Annex H: Example PDF Files"),
    Row(78341, 78434, "PDF20-Spec-Annex-I", "Annex I: PDF Versions"),
    Row(78434, 78611, "PDF20-Spec-Annex-J", "Annex J: XObject Comparison"),
    Row(78611, 78783, "PDF20-Spec-Annex-K", "Annex K: XFA Forms"),
    Row(78783, 82265, "PDF20-Spec-Annex-L", "Annex L: Structure Element Relationships"),
    Row(82265, 82366, "PDF20-Spec-Annex-M", "Annex M: Structure Namespace Differences"),
    Row(82366, 82535, "PDF20-Spec-Annex-N", "Annex N: Halftone Best Practices"),
    Row(82535, 82744, "PDF20-Spec-Annex-O", "Annex O: Fragment Identifiers"),
    Row(82744, 82785, "PDF20-Spec-Annex-P", "Annex P: Blending Colour Space Algorithm"),
    Row(82785, 83010, "PDF20-Spec-Annex-Q", "Annex Q: Page Transparency Detection")
  ]

  const AllSections: seq<Row> := Chapters + Annexes

  lemma ChaptersTile()
    ensures Tiles(Chapters, 1, 63701)
  {
  }

  lemma AnnexesTile()
    ensures Tiles(Annexes, 63701, 83010)
  {
  }

  /** Chapters then annexes run without gap or overlap from line 1 up to line 83010 (exclusive). */
  lemma AllSectionsTile()
    ensures Tiles(AllSections, 1, 83010)
  {
    ChaptersTile();
    AnnexesTile();
    TilesAppend(Chapters, Annexes, 1, 63701, 83010);
  }

  /**
   * `split_chapters`: one page per row of the combined table, clamped
   * slicing, every page under the index page; returns the combined table.
   */
  method SplitChapters(lines: seq<string>) returns (pages: seq<WikiFile>, allSections: seq<Row>)
    ensures allSections == Chapters + Annexes
    ensures pages == PagesFor(lines, allSections, Pdf20Layout, Some(IndexPage), true)
  {
    allSections := Chapters + Annexes;
    var created;
    pages, created := SplitRows(lines, allSections, Pdf20Layout, Some(IndexPage), true);
  }

  /**
   * `main`, for the section pages: the total it reports counts the index
   * and glossary pages besides the 32 chapter and annex pages.
   */
  method SplitSpec(lines: seq<string>) returns (pages: seq<WikiFile>, total: nat)
    ensures pages == PagesFor(lines, AllSections, Pdf20Layout, Some(IndexPage), true)
    ensures total == |pages| + 2 == 34
  {
    var allSections;
    pages, allSections := SplitChapters(lines);
    total := |allSections| + 2;
  }

  /** The chain crosses from the last chapter into the first annex, in both directions. */
  lemma ChainCrossesIntoAnnexes()
    ensures AllSections[14] == Chapters[|Chapters| - 1] && AllSections[15] == Annexes[0]
    ensures Next(AllSections, 14) == Some("PDF20-Spec-Annex-A")
    ensures Prev(AllSections, 15) == Some("PDF20-Spec-14-Document")
  {
  }

  /**
   * Read back to back, the chapter and annex bodies are the file's lines
   * up to line 83009, except that a file ending before line 83010 loses
   * its last line.
   */
  lemma SectionsCoverSpec(lines: seq<string>)
    ensures AllBodyLines(lines, AllSections, true) == Slice(lines, 0, Min(83010, |lines|) - 1)
    ensures 0 < |lines| <= 83010 ==> AllBodyLines(lines, AllSections, true) == lines[..|lines| - 1]
  {
    AllSectionsTile();
    ClampedCoverage(lines, AllSections, 1, 83010);
    if 0 < |lines| <= 83010 {
      ClampedTableDropsLastLine(lines, AllSections, 1, 83010);
    }
  }
}
