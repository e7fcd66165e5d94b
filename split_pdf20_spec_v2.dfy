/**
 * split-pdf20-spec-v2.py: six PDF 2.0 chapters cut into section pages,
 * all sliced from the one full input; each chapter's sections form a chain
 * of their own under that chapter's page.
 */
module SplitPdf20SpecV2 {
  import opened Wrappers
  import opened PySlice
  import opened WikiPage
  import opened PageChain
  import SplitPdf20Spec

  const SectionLayout: Layout := Layout(WikiLinks, "PDF20-Spec-Index")

  const Chapter7Sections: seq<Row> := [
    Row(1954, 2016, "PDF20-Spec-07-General", "7.1 General"),
    Row(2016, 2320, "PDF20-Spec-07-Lexical", "7.2 Lexical Conventions"),
    Row(2320, 3026, "PDF20-Spec-07-Objects", "7.3 Objects"),
    Row(3026, 4440, "PDF20-Spec-07-Filters", "7.4 Filters"),
    Row(4440, 5667, "PDF20-Spec-07-File-Structure", "7.5 File Structure"),
    Row(5667, 7454, "PDF20-Spec-07-Encryption", "7.6 Encryption"),
    Row(7454, 8538, "PDF20-Spec-07-Document-Structure", "7.7 Document Structure"),
    Row(8538, 8811, "PDF20-Spec-07-Content-Streams", "7.8 Content Streams"),
    Row(8811, 8883, "PDF20-Spec-07-Common-Data", "7.9 Common Data Structures"),
    Row(8883, 8889, "PDF20-Spec-07-Functions", "7.10-7.11 Functions & File Specs"),
    Row(8889, 11086, "PDF20-Spec-07-Extensions", "7.12 Extensions Dictionary")
  ]

  const Chapter8Sections: seq<Row> := [
    Row(11086, 11141, "PDF20-Spec-08-General", "8.1 General"),
    Row(11141, 11379, "PDF20-Spec-08-Coordinate", "8.2 Coordinate Systems"),
    Row(11379, 11744, "PDF20-Spec-08-Graphics-State", "8.3 Graphics State"),
    Row(11744, 12856, "PDF20-Spec-08-Graphics-Objects", "8.4 Graphics Objects"),
    Row(12856, 13370, "PDF20-Spec-08-Path-Construction", "8.5 Path Construction"),
    Row(13370, 16086, "PDF20-Spec-08-Colour-Spaces", "8.6 Colour Spaces"),
    Row(16086, 18341, "PDF20-Spec-08-Patterns", "8.7 Patterns"),
    Row(18341, 18421, "PDF20-Spec-08-XObjects", "8.8 External Objects"),
    Row(18421, 21413, "PDF20-Spec-08-Images", "8.9-8.11 Images & Form XObjects")
  ]

  const Chapter9Sections: seq<Row> := [
    Row(21413, 21435, "PDF20-Spec-09-General", "9.1 General"),
    Row(21435, 21783, "PDF20-Spec-09-Organization", "9.2 Organization and Use of Fonts"),
    Row(21783, 22143, "PDF20-Spec-09-Text-State", "9.3 Text State Parameters"),
    Row(22143, 22524, "PDF20-Spec-09-Text-Objects", "9.4 Text Objects"),
    Row(22524, 22655, "PDF20-Spec-09-Text-Strings", "9.5 Text Strings"),
    Row(22655, 23759, "PDF20-Spec-09-Simple-Fonts", "9.6 Simple Fonts"),
    Row(23759, 24931, "PDF20-Spec-09-Composite-Fonts", "9.7 Composite Fonts"),
    Row(24931, 25619, "PDF20-Spec-09-Font-Descriptors", "9.8 Font Descriptors"),
    Row(25619, 26177, "PDF20-Spec-09-Embedded-Fonts", "9.9-9.10 Embedded Fonts & Extraction")
  ]

  const Chapter12Sections: seq<Row> := [
    Row(31242, 31291, "PDF20-Spec-12-General", "12.1 General"),
    Row(31291, 31596, "PDF20-Spec-12-Viewer-Prefs", "12.2 Viewer Preferences"),
    Row(31596, 32997, "PDF20-Spec-12-Doc-Navigation", "12.3 Document-Level Navigation"),
    Row(32997, 33646, "PDF20-Spec-12-Page-Navigation", "12.4 Page-Level Navigation"),
    Row(33646, 36960, "PDF20-Spec-12-Annotations", "12.5 Annotations"),
    Row(36960, 38974, "PDF20-Spec-12-Actions", "12.6 Actions"),
    Row(38974, 42110, "PDF20-Spec-12-Forms", "12.7 Forms"),
    Row(42110, 44294, "PDF20-Spec-12-Signatures", "12.8 Digital Signatures"),
    Row(44294, 44791, "PDF20-Spec-12-Measurement", "12.9 Measurement Properties"),
    Row(44791, 45163, "PDF20-Spec-12-Geospatial", "12.10 Geospatial Features"),
    Row(45163, 45341, "PDF20-Spec-12-Requirements", "12.11 Document Requirements")
  ]

  const Chapter13Sections: seq<Row> := [
    Row(45341, 45674, "PDF20-Spec-13-General", "13.1 General"),
    Row(45674, 47674, "PDF20-Spec-13-Multimedia", "13.2 Multimedia"),
    Row(47674, 47808, "PDF20-Spec-13-Sounds", "13.3 Sounds"),
    Row(47808, 47995, "PDF20-Spec-13-Movies", "13.4 Movies"),
    Row(47995, 48143, "PDF20-Spec-13-Alternate", "13.5 Alternate Presentations"),
    Row(48143, 52348, "PDF20-Spec-13-3D", "13.6 3D Artwork"),
    Row(52348, 53394, "PDF20-Spec-13-Rich-Media", "13.7 Rich Media")
  ]

  const Chapter14Sections: seq<Row> := [
    Row(53394, 53461, "PDF20-Spec-14-General", "14.1 General"),
    Row(53461, 53502, "PDF20-Spec-14-Procedure-Sets", "14.2 Procedure Sets"),
    Row(53502, 53858, "PDF20-Spec-14-Metadata", "14.3 Metadata"),
    Row(53858, 53884, "PDF20-Spec-14-File-Identifiers", "14.4 File Identifiers"),
    Row(53884, 53952, "PDF20-Spec-14-Page-Piece", "14.5 Page-Piece Dictionaries"),
    Row(53952, 54117, "PDF20-Spec-14-Marked-Content", "14.6 Marked Content"),
    Row(54117, 56102, "PDF20-Spec-14-Logical-Structure", "14.7 Logical Structure"),
    Row(56102, 60079, "PDF20-Spec-14-Tagged-PDF", "14.8 Tagged PDF"),
    Row(60079, 63701, "PDF20-Spec-14-Accessibility", "14.9 Accessibility Support")
  ]

  /** One split: a section table, the chapter page it refines, and that page's row in the chapter table. */
  datatype Split = Split(sections: seq<Row>, parent: string, chapter: nat)

  /** The six calls of `main`, in order. */
  const Splits: seq<Split> := [
    Split(Chapter7Sections, "PDF20-Spec-07-Syntax", 7),
    Split(Chapter8Sections, "PDF20-Spec-08-Graphics", 8),
    Split(Chapter9Sections, "PDF20-Spec-09-Text", 9),
    Split(Chapter12Sections, "PDF20-Spec-12-Interactive", 12),
    Split(Chapter13Sections, "PDF20-Spec-13-Multimedia", 13),
    Split(Chapter14Sections, "PDF20-Spec-14-Document", 14)
  ]

  /** `split_file`: one page per section, chained within `sections` only. */
  method SplitFile(lines: seq<string>, sections: seq<Row>, parentName: string)
    returns (pages: seq<WikiFile>)
    ensures pages == PagesFor(lines, sections, SectionLayout, Some(parentName), true)
  {
    var created;
    pages, created := SplitRows(lines, sections, SectionLayout, Some(parentName), true);
  }

  /** The sum of the table lengths that `main` reports. */
  function SectionCount(splits: seq<Split>): nat {
    if splits == [] then 0 else |splits[0].sections| + SectionCount(splits[1..])
  }

  /** The pages of several splits, one table after another. */
  function SplitPages(lines: seq<string>, splits: seq<Split>): (pages: seq<WikiFile>)
    ensures |pages| == SectionCount(splits)
  {
    if splits == [] then []
    else PagesFor(lines, splits[0].sections, SectionLayout, Some(splits[0].parent), true)
         + SplitPages(lines, splits[1..])
  }

  /**
   * `main`: the six splits in order over the one input; the total it
   * reports is the number of section pages written, 56.
   */
  method SplitLargeChapters(lines: seq<string>) returns (pages: seq<WikiFile>, totalSections: nat)
    ensures pages == SplitPages(lines, Splits)
    ensures totalSections == |pages| == 56
  {
    pages := [];
    var i := 0;
    while i < |Splits|
      invariant 0 <= i <= |Splits|
      invariant pages + SplitPages(lines, Splits[i..]) == SplitPages(lines, Splits)
    {
      var p := SplitFile(lines, Splits[i].sections, Splits[i].parent);
      SplitPagesStep(lines, Splits, i);
      pages := pages + p;
      i := i + 1;
    }
    totalSections := |Chapter7Sections| + |Chapter8Sections| + |Chapter9Sections|
                   + |Chapter12Sections| + |Chapter13Sections| + |Chapter14Sections|;
    SixSplitsCount();
  }

  /** The sum over `Splits` is the sum of the six table lengths. */
  lemma SixSplitsCount()
    ensures SectionCount(Splits) == |Chapter7Sections| + |Chapter8Sections| + |Chapter9Sections|
                                  + |Chapter12Sections| + |Chapter13Sections| + |Chapter14Sections| == 56
  {
    SplitsCountTables();
    TableSizes();
  }

  /** `SectionCount` over `Splits` adds up the six tables' lengths, one split at a time. */
  lemma SplitsCountTables()
    ensures SectionCount(Splits) == |Chapter7Sections| + |Chapter8Sections| + |Chapter9Sections|
                                  + |Chapter12Sections| + |Chapter13Sections| + |Chapter14Sections|
  {
    SectionCountStep(Splits, 0);
    SectionCountStep(Splits, 1);
    SectionCountStep(Splits, 2);
    SectionCountStep(Splits, 3);
    SectionCountStep(Splits, 4);
    SectionCountStep(Splits, 5);
    assert Splits[0..] == Splits && Splits[6..] == [];
  }

  /** The six section tables hold 11, 9, 9, 11, 7 and 9 sections. */
  lemma TableSizes()
    ensures |Chapter7Sections| == 11 && |Chapter8Sections| == 9 && |Chapter9Sections| == 9
    ensures |Chapter12Sections| == 11 && |Chapter13Sections| == 7 && |Chapter14Sections| == 9
  {
  }

  /** The pages from split `i` on are split `i`'s pages followed by those of the splits after it. */
  lemma SplitPagesStep(lines: seq<string>, splits: seq<Split>, i: nat)
    requires i < |splits|
    ensures SplitPages(lines, splits[i..])
         == PagesFor(lines, splits[i].sections, SectionLayout, Some(splits[i].parent), true) + SplitPages(lines, splits[i + 1..])
  {
    assert splits[i..][1..] == splits[i + 1..];
  }

  /** The count from split `i` on is split `i`'s table length plus the count after it. */
  lemma SectionCountStep(splits: seq<Split>, i: nat)
    requires i < |splits|
    ensures SectionCount(splits[i..]) == |splits[i].sections| + SectionCount(splits[i + 1..])
  {
    assert splits[i..][1..] == splits[i + 1..];
  }

  /** Each section table runs without gap or overlap over its chapter's lines. */
  lemma Chapter7Tiles()
    ensures Tiles(Chapter7Sections, 1954, 11086)
  {
  }

  lemma Chapter8Tiles()
    ensures Tiles(Chapter8Sections, 11086, 21413)
  {
  }

  lemma Chapter9Tiles()
    ensures Tiles(Chapter9Sections, 21413, 26177)
  {
  }

  lemma Chapter12Tiles()
    ensures Tiles(Chapter12Sections, 31242, 45341)
  {
  }

  lemma Chapter13Tiles()
    ensures Tiles(Chapter13Sections, 45341, 53394)
  {
  }

  lemma Chapter14Tiles()
    ensures Tiles(Chapter14Sections, 53394, 63701)
  {
  }

  /**
   * Each split refines one chapter page of split-pdf20-spec.py: its parent
   * is that page's name and its table tiles exactly that page's lines.
   */
  lemma SplitsRefineChapters(k: nat)
    requires k < |Splits|
    ensures var s := Splits[k];
            var ch := SplitPdf20Spec.Chapters[s.chapter];
            s.parent == ch.filename && Tiles(s.sections, ch.start, ch.end)
  {
    if k == 0 { Chapter7Tiles(); }
    else if k == 1 { Chapter8Tiles(); }
    else if k == 2 { Chapter9Tiles(); }
    else if k == 3 { Chapter12Tiles(); }
    else if k == 4 { Chapter13Tiles(); }
    else { Chapter14Tiles(); }
  }

  /**
   * Hence, read back to back, a chapter's section bodies are exactly the
   * body of that chapter's own page.
   */
  lemma SectionsMatchChapterPage(lines: seq<string>, k: nat)
    requires k < |Splits|
    ensures AllBodyLines(lines, Splits[k].sections, true)
         == BodyLines(lines, SplitPdf20Spec.Chapters[Splits[k].chapter], true)
  {
    var ch := SplitPdf20Spec.Chapters[Splits[k].chapter];
    SplitsRefineChapters(k);
    ClampedCoverage(lines, Splits[k].sections, ch.start, ch.end);
  }

  /**
   * Every call's chain stops at its chapter's borders: the first section
   * starts on the chapter's first line and has no previous link, the last
   * ends where the chapter ends and has no next link.
   */
  lemma ChainsStopAtChapterBorders(k: nat)
    requires k < |Splits|
    ensures var s := Splits[k];
            var ch := SplitPdf20Spec.Chapters[s.chapter];
            && |s.sections| > 0
            && s.sections[0].start == ch.start && Prev(s.sections, 0) == None
            && s.sections[|s.sections| - 1].end == ch.end && Next(s.sections, |s.sections| - 1) == None
  {
    SplitsRefineChapters(k);
    var s := Splits[k];
    assert s.sections != [];
    ChainEnds(s.sections);
  }

  /**
   * An example of the borders above: chapter 7's table ends at the line
   * where chapter 8's begins, yet the first section of chapter 8 has no
   * previous link and the last of chapter 7 no next link.
   */
  lemma ChainsStayWithinChapter()
    ensures Chapter7Sections[|Chapter7Sections| - 1].end == Chapter8Sections[0].start == 11086
    ensures Next(Chapter7Sections, |Chapter7Sections| - 1) == None
    ensures Prev(Chapter8Sections, 0) == None
  {
  }
}
