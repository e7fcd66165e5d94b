/**
 * split-pdf-spec-v3.py: the annex page and the chapter 10 to 14 pages cut
 * into section pages, each chained only within its own table and naming
 * the page it came from as parent; a page that does not exist is skipped.
 */
module SplitPdfSpecV3 {
  import opened Wrappers
  import opened WikiPage
  import opened PageChain

  const SectionLayout: Layout := Layout(WikiLinks, "PDF-Spec-Index")

  /** `ANNEX_SECTIONS`; line numbers count within the annex page. */
  const AnnexSections: seq<Row> := [
    Row(7, 124, "PDF-Spec-Annex-A", "Annex A: Operator Summary"),
    Row(124, 178, "PDF-Spec-Annex-B", "Annex B: Operators in Type 4 Functions"),
    Row(178, 231, "PDF-Spec-Annex-C", "Annex C: Implementation Limits"),
    Row(231, 979, "PDF-Spec-Annex-D", "Annex D: Character Sets and Encodings"),
    Row(979, 1017, "PDF-Spec-Annex-E", "Annex E: PDF Name Registry"),
    Row(1017, 1573, "PDF-Spec-Annex-F", "Annex F: Linearized PDF"),
    Row(1573, 1661, "PDF-Spec-Annex-G", "Annex G: Example PDF Files"),
    Row(1661, 2019, "PDF-Spec-Annex-H", "Annex H: Compatibility and Implementation Notes"),
    Row(2019, 2051, "PDF-Spec-Annex-I", "Annex I: PDF Versions and Compatibility"),
    Row(2051, 2059, "PDF-Spec-Annex-J", "Annex J: PDF Subsets"),
    Row(2059, 2092, "PDF-Spec-Annex-K", "Annex K: XMP Metadata"),
    Row(2092, 2500, "PDF-Spec-Annex-L", "Annex L: Bibliography")
  ]

  const Chapter10Sections: seq<Row> := [
    Row(9, 52, "PDF-Spec-10-General", "10.1-10.2 General & CIE-Based Color"),
    Row(52, 181, "PDF-Spec-10-Color-Conversions", "10.3-10.4 Color Conversions & Transfer Functions"),
    Row(181, 550, "PDF-Spec-10-Halftones", "10.5 Halftones"),
    Row(550, 800, "PDF-Spec-10-Scan-Conversion", "10.6 Scan Conversion")
  ]

  const Chapter11Sections: seq<Row> := [
    Row(9, 200, "PDF-Spec-11-Model", "11.1-11.3 Transparency Model"),
    Row(200, 500, "PDF-Spec-11-Groups", "11.4 Transparency Groups"),
    Row(500, 800, "PDF-Spec-11-Soft-Masks", "11.5-11.6 Soft Masks & Color"),
    Row(800, 1200, "PDF-Spec-11-Specifying", "11.7 Specifying Transparency")
  ]

  const Chapter12Sections: seq<Row> := [
    Row(9, 79, "PDF-Spec-12-General", "12.1-12.2 General & Viewer Preferences"),
    Row(79, 288, "PDF-Spec-12-Navigation", "12.3 Document-Level Navigation"),
    Row(288, 462, "PDF-Spec-12-Page-Navigation", "12.4 Page-Level Navigation"),
    Row(462, 1100, "PDF-Spec-12-Annotations", "12.5 Annotations"),
    Row(1100, 1600, "PDF-Spec-12-Actions", "12.6 Actions"),
    Row(1600, 2200, "PDF-Spec-12-Forms", "12.7 Interactive Forms"),
    Row(2200, 2700, "PDF-Spec-12-Signatures", "12.8 Digital Signatures"),
    Row(2700, 2910, "PDF-Spec-12-Security", "12.9 Security")
  ]

  const Chapter13Sections: seq<Row> := [
    Row(9, 400, "PDF-Spec-13-Multimedia", "13.1-13.2 Multimedia"),
    Row(400, 800, "PDF-Spec-13-Sounds", "13.3 Sounds"),
    Row(800, 1400, "PDF-Spec-13-Movies", "13.4 Movies"),
    Row(1400, 2000, "PDF-Spec-13-3D", "13.5-13.6 3D Artwork")
  ]

  const Chapter14Sections: seq<Row> := [
    Row(9, 400, "PDF-Spec-14-Metadata", "14.1-14.3 Metadata & File Identifiers"),
    Row(400, 800, "PDF-Spec-14-Page-Piece", "14.4-14.5 Page-Piece & Marked Content"),
    Row(800, 1200, "PDF-Spec-14-Structure", "14.6-14.7 Logical Structure"),
    Row(1200, 1800, "PDF-Spec-14-Accessibility", "14.8 Tagged PDF & Accessibility"),
    Row(1800, 2117, "PDF-Spec-14-Web-Capture", "14.9-14.11 Web Capture & Prepress")
  ]

  /** Every section table runs without gap or overlap over its page. */
  lemma AnnexTableTiles()
    ensures Tiles(AnnexSections, 7, 2500)
  {
  }

  lemma Chapter10Tiles()
    ensures Tiles(Chapter10Sections, 9, 800)
  {
  }

  lemma Chapter11Tiles()
    ensures Tiles(Chapter11Sections, 9, 1200)
  {
  }

  lemma Chapter12Tiles()
    ensures Tiles(Chapter12Sections, 9, 2910)
  {
  }

  lemma Chapter13Tiles()
    ensures Tiles(Chapter13Sections, 9, 2000)
  {
  }

  lemma Chapter14Tiles()
    ensures Tiles(Chapter14Sections, 9, 2117)
  {
  }

  /** What `split_file` writes: nothing for a missing page, else one page per section. */
  function FilePages(source: Option<seq<string>>, sections: seq<Row>, parentName: string): seq<WikiFile> {
    match source
    case None => []
    case Some(lines) => PagesFor(lines, sections, SectionLayout, Some(parentName), true)
  }

  /** `split_file`: returns early when the page to split does not exist. */
  method SplitFile(source: Option<seq<string>>, sections: seq<Row>, parentName: string)
    returns (pages: seq<WikiFile>)
    ensures pages == FilePages(source, sections, parentName)
    ensures source.None? ==> pages == []
    ensures source.Some? ==> |pages| == |sections|
  {
    if source.None? {
      return [];
    }
    var created;
    pages, created := SplitRows(source.value, sections, SectionLayout, Some(parentName), true);
  }

  /** The six source pages, in the order `main` visits them. */
  datatype Sources = Sources(annexes: Option<seq<string>>, ch10: Option<seq<string>>, ch11: Option<seq<string>>,
                             ch12: Option<seq<string>>, ch13: Option<seq<string>>, ch14: Option<seq<string>>)
  {
    predicate AllPresent() {
      annexes.Some? && ch10.Some? && ch11.Some? && ch12.Some? && ch13.Some? && ch14.Some?
    }
  }

  function AllPages(src: Sources): seq<WikiFile> {
    FilePages(src.annexes, AnnexSections, "PDF-Spec-Annexes")
      + FilePages(src.ch10, Chapter10Sections, "PDF-Spec-10-Rendering")
      + FilePages(src.ch11, Chapter11Sections, "PDF-Spec-11-Transparency")
      + FilePages(src.ch12, Chapter12Sections, "PDF-Spec-12-Interactive-Features")
      + FilePages(src.ch13, Chapter13Sections, "PDF-Spec-13-Multimedia-Features")
      + FilePages(src.ch14, Chapter14Sections, "PDF-Spec-14-Document-Interchange")
  }

  /**
   * `main`: the six splits in order; when every page exists, the number of
   * section pages written is the 37 the closing message announces.
   */
  method SplitRemaining(src: Sources) returns (pages: seq<WikiFile>)
    ensures pages == AllPages(src)
    ensures src.AllPresent() ==> |pages| == 37
  {
    var p := SplitFile(src.annexes, AnnexSections, "PDF-Spec-Annexes");
    pages := p;
    p := SplitFile(src.ch10, Chapter10Sections, "PDF-Spec-10-Rendering");
    pages := pages + p;
    p := SplitFile(src.ch11, Chapter11Sections, "PDF-Spec-11-Transparency");
    pages := pages + p;
    p := SplitFile(src.ch12, Chapter12Sections, "PDF-Spec-12-Interactive-Features");
    pages := pages + p;
    p := SplitFile(src.ch13, Chapter13Sections, "PDF-Spec-13-Multimedia-Features");
    pages := pages + p;
    p := SplitFile(src.ch14, Chapter14Sections, "PDF-Spec-14-Document-Interchange");
    pages := pages + p;
  }
}
