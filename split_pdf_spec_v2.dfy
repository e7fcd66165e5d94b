/**
 * split-pdf-spec-v2.py: the chapter pages for chapters 7, 8 and 9 cut
 * into one page per section, each naming its chapter in a "Part of" line,
 * plus the bullet list a chapter index page shows.
 */
module SplitPdfSpecV2 {
  import opened Wrappers
  import opened Text
  import opened PySlice
  import opened WikiPage
  import opened PageChain

  const SectionLayout: Layout := Layout(WikiLinks, "PDF-Spec-Index")

  /** `CHAPTER_7_SECTIONS`; line numbers count within the chapter 7 page. */
  const Chapter7Sections: seq<Row> := [
    Row(9, 28, "PDF-Spec-07-General", "7.1 General"),
    Row(28, 96, "PDF-Spec-07-Lexical", "7.2 Lexical Conventions"),
    Row(96, 384, "PDF-Spec-07-Objects", "7.3 Objects"),
    Row(384, 600, "PDF-Spec-07-Filters", "7.4 Filters"),
    Row(600, 800, "PDF-Spec-07-File-Structure", "7.5 File Structure"),
    Row(800, 1200, "PDF-Spec-07-Encryption", "7.6 Encryption"),
    Row(1200, 1800, "PDF-Spec-07-Content-Streams", "7.7-7.9 Content Streams & Structure"),
    Row(1800, 2603, "PDF-Spec-07-Resources", "7.10-7.12 Resources & Extensions")
  ]

  /** `CHAPTER_8_SECTIONS`. */
  const Chapter8Sections: seq<Row> := [
    Row(9, 100, "PDF-Spec-08-General", "8.1-8.2 General & Coordinate Systems"),
    Row(100, 400, "PDF-Spec-08-Graphics-State", "8.3-8.4 Graphics State"),
    Row(400, 800, "PDF-Spec-08-Path-Construction", "8.5 Path Construction & Painting"),
    Row(800, 1200, "PDF-Spec-08-Clipping-Paths", "8.6 Clipping Paths"),
    Row(1200, 1800, "PDF-Spec-08-Color-Spaces", "8.7 Color Spaces"),
    Row(1800, 2200, "PDF-Spec-08-Patterns", "8.8 Patterns"),
    Row(2200, 2600, "PDF-Spec-08-XObjects", "8.9 External Objects (XObjects)"),
    Row(2600, 2994, "PDF-Spec-08-Images", "8.10-8.11 Images & Form XObjects")
  ]

  /** `CHAPTER_9_SECTIONS`. */
  const Chapter9Sections: seq<Row> := [
    Row(9, 142, "PDF-Spec-09-Organization", "9.1-9.2 Organization & Use of Fonts"),
    Row(142, 348, "PDF-Spec-09-Text-State", "9.3 Text State Parameters & Operators"),
    Row(348, 507, "PDF-Spec-09-Text-Objects", "9.4 Text Objects"),
    Row(507, 800, "PDF-Spec-09-Fonts", "9.5-9.6 Font Data Structures & Simple Fonts"),
    Row(800, 1100, "PDF-Spec-09-CIDFonts", "9.7 CIDFonts & Composite Fonts"),
    Row(1100, 1400, "PDF-Spec-09-Font-Descriptors", "9.8 Font Descriptors"),
    Row(1400, 1608, "PDF-Spec-09-Encoding", "9.9-9.10 Encoding & Text Extraction")
  ]

  /** Each section table runs without gap or overlap from line 9 of its chapter page. */
  lemma Chapter7Tiles()
    ensures Tiles(Chapter7Sections, 9, 2603)
  {
  }

  lemma Chapter8Tiles()
    ensures Tiles(Chapter8Sections, 9, 2994)
  {
  }

  lemma Chapter9Tiles()
    ensures Tiles(Chapter9Sections, 9, 1608)
  {
  }

  /**
   * `split_chapter_into_sections`: one page per section with clamped
   * slicing, the chapter as parent, and the section file names returned in
   * table order.
   */
  method SplitChapterIntoSections(lines: seq<string>, sections: seq<Row>, chapterName: string)
    returns (pages: seq<WikiFile>, created: seq<string>)
    ensures pages == PagesFor(lines, sections, SectionLayout, Some(chapterName), true)
    ensures created == Filenames(sections)
    ensures forall i :: 0 <= i < |sections| ==> pages[i].name == created[i] + ".md"
  {
    pages, created := SplitRows(lines, sections, SectionLayout, Some(chapterName), true);
  }

  /** The pages for one chapter page, or none when that page does not exist. */
  function ChapterPages(chapter: Option<seq<string>>, sections: seq<Row>, chapterName: string): seq<WikiFile> {
    match chapter
    case None => []
    case Some(lines) => PagesFor(lines, sections, SectionLayout, Some(chapterName), true)
  }

  /**
   * `main`, for the section pages: each of the three chapter pages that
   * exists is split by its own table; the glossary and the index page are
   * not part of this model.
   */
  method SplitLargeChapters(ch7: Option<seq<string>>, ch8: Option<seq<string>>, ch9: Option<seq<string>>)
    returns (pages: seq<WikiFile>)
    ensures pages == ChapterPages(ch7, Chapter7Sections, "PDF-Spec-07-Syntax")
                   + ChapterPages(ch8, Chapter8Sections, "PDF-Spec-08-Graphics")
                   + ChapterPages(ch9, Chapter9Sections, "PDF-Spec-09-Text")
    ensures ch7.None? && ch8.None? && ch9.None? ==> pages == []
    ensures ch7.Some? && ch8.Some? && ch9.Some? ==> |pages| == 23
  {
    pages := [];
    var created;
    if ch7.Some? {
      var p;
      p, created := SplitChapterIntoSections(ch7.value, Chapter7Sections, "PDF-Spec-07-Syntax");
      pages := pages + p;
    }
    if ch8.Some? {
      var p;
      p, created := SplitChapterIntoSections(ch8.value, Chapter8Sections, "PDF-Spec-08-Graphics");
      pages := pages + p;
    }
    if ch9.Some? {
      var p;
      p, created := SplitChapterIntoSections(ch9.value, Chapter9Sections, "PDF-Spec-09-Text");
      pages := pages + p;
    }
  }

  /**
   * A chapter page of `n` lines that ends inside its section table loses
   * its last line: the sections together hold lines 9 to `n - 1`.
   */
  lemma Chapter7DropsLastLine(lines: seq<string>)
    requires 9 <= |lines| <= 2603
    ensures AllBodyLines(lines, Chapter7Sections, true) == lines[8..|lines| - 1]
  {
    Chapter7Tiles();
    ClampedTableDropsLastLine(lines, Chapter7Sections, 9, 2603);
  }

  /** One bullet of a chapter index: `- [[filename|title]]`. */
  function Bullet(row: Row): string {
    "- [[" + row.filename + "|" + row.title + "]]"
  }

  function Bullets(rows: seq<Row>): (r: seq<string>)
    ensures |r| == |rows|
  {
    seq(|rows|, i requires 0 <= i < |rows| => Bullet(rows[i]))
  }

  function Intro(chapterTitle: string): string {
    "This chapter covers " + Lower(chapterTitle) + ".\n\n## Sections\n\n"
  }

  const Outro: string := "\n## Quick Navigation\n\n"

  /** The chapter index text: introduction, one bullet line per section, closing heading. */
  function ChapterIndex(chapterTitle: string, sections: seq<Row>): string {
    Intro(chapterTitle) + Concat(Terminated(Bullets(sections))) + Outro
  }

  /** `create_chapter_index`: the bullets are appended one section at a time. */
  method CreateChapterIndex(chapterName: string, chapterTitle: string, sections: seq<Row>)
    returns (content: string)
    ensures content == ChapterIndex(chapterTitle, sections)
  {
    content := "This chapter covers " + Lower(chapterTitle) + ".\n\n## Sections\n\n";
    var i := 0;
    while i < |sections|
      invariant 0 <= i <= |sections|
      invariant content == Intro(chapterTitle) + Concat(Terminated(Bullets(sections[..i])))
    {
      var row := sections[i];
      IndexStep(chapterTitle, sections, i, content);
      content := content + ("- [[" + row.filename + "|" + row.title + "]]\n");
      i := i + 1;
    }
    assert sections[..i] == sections;
    content := content + "\n## Quick Navigation\n\n";
  }

  /** Appending section `i`'s bullet line extends the index by that section. */
  lemma IndexStep(chapterTitle: string, sections: seq<Row>, i: nat, content: string)
    requires i < |sections|
    requires content == Intro(chapterTitle) + Concat(Terminated(Bullets(sections[..i])))
    ensures content + ("- [[" + sections[i].filename + "|" + sections[i].title + "]]\n")
         == Intro(chapterTitle) + Concat(Terminated(Bullets(sections[..i + 1])))
  {
    var c := Concat(Terminated(Bullets(sections[..i])));
    var line := Bullet(sections[i]) + "\n";
    BulletLineSnoc(sections, i);
    assert Intro(chapterTitle) + c + line == Intro(chapterTitle) + (c + line);
  }

  /** The bullet lines of the first `i + 1` sections are those of the first `i` and then section `i`'s. */
  lemma BulletLineSnoc(sections: seq<Row>, i: nat)
    requires i < |sections|
    ensures Concat(Terminated(Bullets(sections[..i + 1])))
         == Concat(Terminated(Bullets(sections[..i]))) + (Bullet(sections[i]) + "\n")
  {
    var ts := Terminated(Bullets(sections[..i]));
    var line := Bullet(sections[i]) + "\n";
    assert Terminated(Bullets(sections[..i + 1])) == ts + [line];
    ConcatAppend(ts, [line]);
    assert Concat([line]) == line;
  }

  /** The lines of a chapter index with a given bullet list. */
  function IndexLines(chapterTitle: string, bullets: seq<string>): seq<string> {
    ["This chapter covers " + Lower(chapterTitle) + ".", "", "## Sections", ""]
      + bullets + ["", "## Quick Navigation", "", ""]
  }

  /**
   * Read line by line, a chapter index holds its four opening lines, then
   * exactly one bullet per section in table order, then its closing lines.
   */
  lemma ChapterIndexListsEverySection(chapterTitle: string, sections: seq<Row>)
    requires '\n' !in chapterTitle
    requires forall i :: 0 <= i < |sections| ==> '\n' !in sections[i].filename && '\n' !in sections[i].title
    ensures Split(ChapterIndex(chapterTitle, sections)) == IndexLines(chapterTitle, Bullets(sections))
  {
    var all := IndexLines(chapterTitle, Bullets(sections));
    JoinIndexLines(chapterTitle, sections);
    LowerKeepsNewlineFree(chapterTitle);
    forall i | 0 <= i < |all|
      ensures '\n' !in all[i]
    {
      if 4 <= i < 4 + |sections| {
        assert all[i] == Bullet(sections[i - 4]);
      }
    }
    SplitJoin(all);
  }

  /** The chapter index is its lines joined by newlines. */
  lemma JoinIndexLines(chapterTitle: string, sections: seq<Row>)
    ensures Join(IndexLines(chapterTitle, Bullets(sections))) == ChapterIndex(chapterTitle, sections)
  {
    var b := Bullets(sections);
    var head := ["This chapter covers " + Lower(chapterTitle) + ".", "", "## Sections", ""];
    var tail := ["", "## Quick Navigation", "", ""];
    IntroLines(chapterTitle);
    OutroLines();
    JoinAround(head, b, tail);
    assert IndexLines(chapterTitle, b) == head + b + tail;
  }

  /** The four opening lines of a chapter index, joined, are its introduction without the final newline. */
  lemma IntroLines(chapterTitle: string)
    ensures Join(["This chapter covers " + Lower(chapterTitle) + ".", "", "## Sections", ""]) + "\n"
         == Intro(chapterTitle)
  {
    JoinFour("This chapter covers " + Lower(chapterTitle) + ".", "", "## Sections", "");
  }

  /** The four closing lines of a chapter index, joined, are its closing heading. */
  lemma OutroLines()
    ensures Join(["", "## Quick Navigation", "", ""]) == Outro
  {
    JoinFour("", "## Quick Navigation", "", "");
  }

  /** Lines between two non-empty blocks of lines: each of the middle lines ends in a newline. */
  lemma JoinAround(head: seq<string>, mid: seq<string>, tail: seq<string>)
    requires |head| >= 1 && |tail| >= 1
    ensures Join(head + mid + tail) == Join(head) + "\n" + Concat(Terminated(mid)) + Join(tail)
  {
    ConcatTerminated(mid);
    if mid == [] {
      assert head + mid + tail == head + tail;
      JoinAppend(head, tail);
    } else {
      JoinAroundSome(head, mid, tail);
    }
  }

  /** `JoinAround` when there are middle lines. */
  lemma JoinAroundSome(head: seq<string>, mid: seq<string>, tail: seq<string>)
    requires |head| >= 1 && |mid| >= 1 && |tail| >= 1
    ensures Join(head + mid + tail) == Join(head) + "\n" + (Join(mid) + "\n") + Join(tail)
  {
    assert head + mid + tail == head + (mid + tail);
    JoinAppend(head, mid + tail);
    JoinAppend(mid, tail);
    Regroup(Join(head), Join(mid), Join(tail));
  }

  lemma Regroup(h: string, m: string, t: string)
    ensures h + "\n" + (m + "\n" + t) == h + "\n" + (m + "\n") + t
  {
  }

  lemma JoinFour(a: string, b: string, c: string, d: string)
    ensures Join([a, b, c, d]) == a + "\n" + b + "\n" + c + "\n" + d
  {
    assert [a, b, c, d][1..] == [b, c, d];
    assert [b, c, d][1..] == [c, d];
    assert [c, d][1..] == [d];
    assert Join([c, d]) == c + "\n" + d;
    assert Join([b, c, d]) == b + "\n" + (c + "\n" + d);
    assert Join([a, b, c, d]) == a + "\n" + (b + "\n" + (c + "\n" + d));
  }
}
