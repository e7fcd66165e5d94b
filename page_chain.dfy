/**
 * The loop every splitting script runs over its table of
 * `(start_line, end_line, filename, title)` rows: each row becomes one wiki
 * page whose body is a Python slice of the input lines and whose navigation
 * links point at the previous and next rows of the same table.
 */
module PageChain {
  import opened Wrappers
  import opened Text
  import opened PySlice
  import opened WikiPage

  /** One table row; line numbers are 1-based, `end` is exclusive. */
  datatype Row = Row(start: int, end: int, filename: string, title: string)

  /** `sections[i-1][2] if i > 0 else None`. */
  function Prev(rows: seq<Row>, i: nat): Option<string>
    requires i < |rows|
  {
    if i > 0 then Some(rows[i - 1].filename) else None
  }

  /** `sections[i+1][2] if i < len(sections) - 1 else None`. */
  function Next(rows: seq<Row>, i: nat): Option<string>
    requires i < |rows|
  {
    if i < |rows| - 1 then Some(rows[i + 1].filename) else None
  }

  function Min(a: int, b: int): int {
    if a <= b then a else b
  }

  /**
   * The upper line number a row is read up to: `end` itself in
   * split-pdf-spec.py, `min(end, total_lines)` in the other scripts.
   */
  function EndLine(row: Row, n: nat, clamp: bool): int {
    if clamp then Min(row.end, n) else row.end
  }

  /** `lines[start-1 : actual_end-1]`. */
  function BodyLines(lines: seq<string>, row: Row, clamp: bool): seq<string> {
    Slice(lines, row.start - 1, EndLine(row, |lines|, clamp) - 1)
  }

  /** The page written for row `i`. */
  function PageFor(lines: seq<string>, rows: seq<Row>, i: nat, layout: Layout,
                   parent: Option<string>, clamp: bool): WikiFile
    requires i < |rows|
  {
    WikiFile(rows[i].filename + ".md",
             PageText(layout, rows[i].title, Concat(BodyLines(lines, rows[i], clamp)),
                      Prev(rows, i), Next(rows, i), parent))
  }

  /** The pages for a whole table, in table order. */
  function PagesFor(lines: seq<string>, rows: seq<Row>, layout: Layout,
                    parent: Option<string>, clamp: bool): (pages: seq<WikiFile>)
    ensures |pages| == |rows|
  {
    seq(|rows|, i requires 0 <= i < |rows| => PageFor(lines, rows, i, layout, parent, clamp))
  }

  /** The file names of a table, in table order. */
  function Filenames(rows: seq<Row>): (names: seq<string>)
    ensures |names| == |rows|
  {
    seq(|rows|, i requires 0 <= i < |rows| => rows[i].filename)
  }

  /**
   * The loop over the table: one `write_wiki_page` call per row, collecting
   * the file names written (split-pdf-spec-v2.py returns them).
   */
  method SplitRows(lines: seq<string>, rows: seq<Row>, layout: Layout,
                   parent: Option<string>, clamp: bool)
    returns (pages: seq<WikiFile>, created: seq<string>)
    ensures pages == PagesFor(lines, rows, layout, parent, clamp)
    ensures created == Filenames(rows)
    ensures forall k :: 0 <= k < |rows| ==> pages[k].name == created[k] + ".md"
  {
    ghost var all := PagesFor(lines, rows, layout, parent, clamp);
    pages := [];
    created := [];
    var i := 0;
    while i < |rows|
      invariant 0 <= i <= |rows|
      invariant pages == all[..i]
      invariant created == Filenames(rows)[..i]
    {
      var file := WriteRow(lines, rows, i, layout, parent, clamp);
      TakeOneMore(all, i);
      TakeOneMore(Filenames(rows), i);
      pages := pages + [file];
      created := created + [rows[i].filename];
      i := i + 1;
    }
    assert all[..i] == all;
    assert Filenames(rows)[..i] == Filenames(rows);
    PagesNamedByFilenames(lines, rows, layout, parent, clamp);
  }

  /** The first `i + 1` elements are the first `i` and then element `i`. */
  lemma TakeOneMore<T>(s: seq<T>, i: nat)
    requires i < |s|
    ensures s[..i + 1] == s[..i] + [s[i]]
  {
  }

  /** Page `k` of a table is written to row `k`'s file name with `.md` appended. */
  lemma PagesNamedByFilenames(lines: seq<string>, rows: seq<Row>, layout: Layout,
                              parent: Option<string>, clamp: bool)
    ensures forall k :: 0 <= k < |rows| ==>
              PagesFor(lines, rows, layout, parent, clamp)[k].name == Filenames(rows)[k] + ".md"
  {
  }

  /** One iteration of the loop: the neighbours, the clamped slice and the page for row `i`. */
  method WriteRow(lines: seq<string>, rows: seq<Row>, i: nat, layout: Layout,
                  parent: Option<string>, clamp: bool)
    returns (file: WikiFile)
    requires i < |rows|
    ensures file == PageFor(lines, rows, i, layout, parent, clamp)
  {
    var totalLines := |lines|;
    var row := rows[i];
    var actualEnd := if clamp then Min(row.end, totalLines) else row.end;
    var prevPage := if i > 0 then Some(rows[i - 1].filename) else None;
    var nextPage := if i < |rows| - 1 then Some(rows[i + 1].filename) else None;
    var content := Concat(Slice(lines, row.start - 1, actualEnd - 1));
    var written;
    file, written := WritePage(layout, row.filename, row.title, content, prevPage, nextPage, parent);
  }

  /**
   * The chain: the first page has no previous link, the last no next link,
   * and every other page links to its table neighbours; following a next
   * link and then a previous link leads back where it started.
   */
  lemma ChainEnds(rows: seq<Row>)
    requires |rows| > 0
    ensures Prev(rows, 0) == None && Next(rows, |rows| - 1) == None
    ensures forall i :: 0 < i < |rows| ==> Prev(rows, i) == Some(rows[i - 1].filename)
    ensures forall i :: 0 <= i < |rows| - 1 ==>
              Next(rows, i) == Some(rows[i + 1].filename) && Prev(rows, i + 1) == Some(rows[i].filename)
  {
  }

  /** Every link target is a file name from the same table. */
  lemma LinksStayInTable(rows: seq<Row>, i: nat)
    requires i < |rows|
    ensures Prev(rows, i).Some? ==> exists j :: 0 <= j < |rows| && j != i && rows[j].filename == Prev(rows, i).value
    ensures Next(rows, i).Some? ==> exists j :: 0 <= j < |rows| && j != i && rows[j].filename == Next(rows, i).value
  {
    if i > 0 {
      assert rows[i - 1].filename == Prev(rows, i).value;
    }
    if i < |rows| - 1 {
      assert rows[i + 1].filename == Next(rows, i).value;
    }
  }

  /**
   * The rows cover the lines `first .. last - 1` one after another: each
   * row is non-empty and ends where the next one starts.
   */
  predicate Tiles(rows: seq<Row>, first: int, last: int) {
    if rows == [] then first == last
    else
      && rows[0].start == first
      && rows[|rows| - 1].end == last
      && (forall i :: 0 <= i < |rows| ==> rows[i].start < rows[i].end)
      && (forall i :: 0 <= i < |rows| - 1 ==> rows[i].end == rows[i + 1].start)
  }

  lemma TilesTail(rows: seq<Row>, first: int, last: int)
    requires rows != [] && Tiles(rows, first, last)
    ensures first < rows[0].end <= last
    ensures Tiles(rows[1..], rows[0].end, last)
  {
    var k := 0;
    while k < |rows| - 1
      invariant 0 <= k <= |rows| - 1
      invariant rows[0].end <= rows[k].end
    {
      k := k + 1;
    }
  }

  /** `Tiles` unrolled one row at a time: each row starts where the previous one ended. */
  predicate Chained(rows: seq<Row>, first: int, last: int)
    decreases |rows|
  {
    if rows == [] then first == last
    else rows[0].start == first < rows[0].end && Chained(rows[1..], rows[0].end, last)
  }

  /** A tiling table is chained. */
  lemma {:induction false} TilesChained(rows: seq<Row>, first: int, last: int)
    requires Tiles(rows, first, last)
    ensures Chained(rows, first, last)
    decreases |rows|
  {
    if rows != [] {
      TilesTail(rows, first, last);
      TilesChained(rows[1..], rows[0].end, last);
    }
  }

  /** Two tables that meet at line `mid` tile the whole range when put one after the other. */
  lemma TilesAppend(a: seq<Row>, b: seq<Row>, first: int, mid: int, last: int)
    requires a != [] && b != []
    requires Tiles(a, first, mid) && Tiles(b, mid, last)
    ensures Tiles(a + b, first, last)
  {
    var ab := a + b;
    forall i | 0 <= i < |ab| - 1
      ensures ab[i].end == ab[i + 1].start
    {
      if i == |a| - 1 {
        assert ab[i] == a[|a| - 1] && ab[i + 1] == b[0];
      } else if i < |a| - 1 {
        assert ab[i] == a[i] && ab[i + 1] == a[i + 1];
      } else {
        assert ab[i] == b[i - |a|] && ab[i + 1] == b[i - |a| + 1];
      }
    }
  }

  /** The bodies of all the rows' pages, one after another. */
  function AllBodyLines(lines: seq<string>, rows: seq<Row>, clamp: bool): seq<string> {
    if rows == [] then [] else BodyLines(lines, rows[0], clamp) + AllBodyLines(lines, rows[1..], clamp)
  }

  /** `''.join` of all bodies is the concatenation of the pages' bodies. */
  lemma {:induction false} AllBodyText(lines: seq<string>, rows: seq<Row>, clamp: bool)
    ensures Concat(AllBodyLines(lines, rows, clamp))
         == Concat(seq(|rows|, i requires 0 <= i < |rows| => Concat(BodyLines(lines, rows[i], clamp))))
  {
    if rows != [] {
      AllBodyText(lines, rows[1..], clamp);
      ConcatAppend(BodyLines(lines, rows[0], clamp), AllBodyLines(lines, rows[1..], clamp));
      var whole := seq(|rows|, i requires 0 <= i < |rows| => Concat(BodyLines(lines, rows[i], clamp)));
      var tail := seq(|rows| - 1, i requires 0 <= i < |rows| - 1 => Concat(BodyLines(lines, rows[1..][i], clamp)));
      assert whole[1..] == tail;
    }
  }

  /**
   * Without clamping (split-pdf-spec.py), a table that tiles
   * `first .. last - 1` puts exactly `lines[first-1 : last-1]` into its
   * pages, once each and in order.
   */
  lemma UnclampedCoverage(lines: seq<string>, rows: seq<Row>, first: int, last: int)
    requires first >= 1 && Tiles(rows, first, last)
    ensures AllBodyLines(lines, rows, false) == Slice(lines, first - 1, last - 1)
  {
    TilesChained(rows, first, last);
    UnclampedChain(lines, rows, first, last);
  }

  /** `UnclampedCoverage` by induction over the rows, one link at a time. */
  lemma {:induction false} UnclampedChain(lines: seq<string>, rows: seq<Row>, first: int, last: int)
    requires first >= 1 && Chained(rows, first, last)
    ensures first <= last
    ensures AllBodyLines(lines, rows, false) == Slice(lines, first - 1, last - 1)
    decreases |rows|
  {
    if rows != [] {
      UnclampedChain(lines, rows[1..], rows[0].end, last);
      UnclampedHead(lines, rows[0], last);
    }
  }

  /** A row's body followed by the read from its end on is the read from its start. */
  lemma UnclampedHead(lines: seq<string>, row: Row, last: int)
    requires 1 <= row.start <= row.end <= last
    ensures BodyLines(lines, row, false) + Slice(lines, row.end - 1, last - 1) == Slice(lines, row.start - 1, last - 1)
  {
    SliceJoin(lines, row.start - 1, row.end - 1, last - 1);
  }

  /**
   * A table that tiles from line 1, read without clamping, is the file's
   * first `last - 1` lines (as far as the file goes), in text as well.
   */
  lemma UnclampedFromFirstLine(lines: seq<string>, rows: seq<Row>, last: int)
    requires 1 <= last && Tiles(rows, 1, last)
    ensures AllBodyLines(lines, rows, false) == lines[..Min(|lines|, last - 1)]
    ensures Concat(seq(|rows|, i requires 0 <= i < |rows| => Concat(BodyLines(lines, rows[i], false))))
         == Concat(lines[..Min(|lines|, last - 1)])
  {
    TilesChained(rows, 1, last);
    UnclampedChain(lines, rows, 1, last);
    assert Slice(lines, 0, last - 1) == Slice(lines, 0, Min(|lines|, last - 1));
    SliceInRange(lines, 0, Min(|lines|, last - 1));
    AllBodyText(lines, rows, false);
  }

  /**
   * With clamping, a table that tiles `first .. last - 1` puts exactly
   * `lines[first-1 : min(last, n)-1]` into its pages: everything up to the
   * table's end, but never the file's last line.
   */
  lemma ClampedCoverage(lines: seq<string>, rows: seq<Row>, first: int, last: int)
    requires first >= 1 && Tiles(rows, first, last)
    ensures AllBodyLines(lines, rows, true) == Slice(lines, first - 1, Min(last, |lines|) - 1)
  {
    TilesChained(rows, first, last);
    ClampedChain(lines, rows, first, last);
  }

  /** `ClampedCoverage` by induction over the rows, one link at a time. */
  lemma {:induction false} ClampedChain(lines: seq<string>, rows: seq<Row>, first: int, last: int)
    requires first >= 1 && Chained(rows, first, last)
    ensures first <= last
    ensures AllBodyLines(lines, rows, true) == Slice(lines, first - 1, Min(last, |lines|) - 1)
    decreases |rows|
  {
    if rows != [] {
      ClampedChain(lines, rows[1..], rows[0].end, last);
      ClampedHead(lines, rows[0], last);
    }
  }

  /** A row's clamped body followed by the clamped read from its end on is the clamped read from its start. */
  lemma ClampedHead(lines: seq<string>, row: Row, last: int)
    requires 1 <= row.start < row.end <= last
    ensures BodyLines(lines, row, true) + Slice(lines, row.end - 1, Min(last, |lines|) - 1)
         == Slice(lines, row.start - 1, Min(last, |lines|) - 1)
  {
    ClampedJoin(lines, row.start, row.end, last);
  }

  /** Two clamped reads that meet at line `e` make up the clamped read across both. */
  lemma ClampedJoin(lines: seq<string>, first: int, e: int, last: int)
    requires 1 <= first < e <= last
    ensures Slice(lines, first - 1, Min(e, |lines|) - 1) + Slice(lines, e - 1, Min(last, |lines|) - 1)
         == Slice(lines, first - 1, Min(last, |lines|) - 1)
  {
    var n := |lines|;
    if n == 0 {
    } else if e <= n {
      SliceJoin(lines, first - 1, e - 1, Min(last, n) - 1);
    } else {
      SliceInverted(lines, e - 1, Min(last, n) - 1);
    }
  }

  /**
   * A table that tiles past the end of a file of `n` lines, read with
   * clamping, puts every line from `first` on into its pages except the
   * file's last one.
   */
  lemma ClampedTableDropsLastLine(lines: seq<string>, rows: seq<Row>, first: int, last: int)
    requires 1 <= first <= |lines| <= last && Tiles(rows, first, last)
    ensures AllBodyLines(lines, rows, true) == lines[first - 1..|lines| - 1]
  {
    ClampedCoverage(lines, rows, first, last);
    SliceInRange(lines, first - 1, |lines| - 1);
  }

  /**
   * Clamping reads the file as though its last line were not there: for a
   * row with `1 <= start <= end`, the clamped body is the unclamped slice
   * of `lines[:-1]`.
   */
  lemma ClampedBodySkipsLastLine(lines: seq<string>, row: Row)
    requires |lines| > 0 && 1 <= row.start <= row.end
    ensures BodyLines(lines, row, true) == Slice(lines[..|lines| - 1], row.start - 1, row.end - 1)
  {
    var n := |lines|;
    var p := lines[..n - 1];
    if row.end <= n {
      SliceOfPrefix(lines, row.start - 1, row.end - 1, n - 1);
    } else {
      SliceOfPrefix(lines, row.start - 1, n - 1, n - 1);
      assert Bound(row.end - 1, |p|) == Bound(n - 1, |p|);
    }
  }

  /**
   * The quirk: a row reaching past the end of the file keeps the last line
   * when unclamped, and loses exactly that line when clamped.
   */
  lemma ClampDropsLastLine(lines: seq<string>, row: Row)
    requires 1 <= row.start <= |lines| < row.end
    ensures var unclamped := BodyLines(lines, row, false);
            && unclamped == lines[row.start - 1..]
            && unclamped[|unclamped| - 1] == lines[|lines| - 1]
            && BodyLines(lines, row, true) == unclamped[..|unclamped| - 1]
  {
  }

  /** Cutting a contiguous table at the file's end: pages after it are empty. */
  lemma RowPastEndIsEmpty(lines: seq<string>, row: Row)
    requires |lines| <= row.start - 1
    ensures BodyLines(lines, row, true) == [] && BodyLines(lines, row, false) == []
  {
  }
}
