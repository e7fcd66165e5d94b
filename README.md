# pdfe wiki splitters and RedactArea fixers, in Dafny

This project models two families of maintenance scripts from the pdfe
repository. Both are text transformations.

**Wiki splitters.** The five `split-*` scripts cut a Markdown rendering of
the PDF specification (ISO 32000-1 and ISO 32000-2) into wiki pages.
- A table of `(start, end, filename, title)` rows drives each script.
- Each row becomes a page whose body is the Python slice
  `lines[start-1 : end-1]`. Four of the scripts first clamp `end` to the
  line count.
- `write_wiki_page` wraps the body in a navigation header and footer that
  link to the previous and next row, to the index page and, in four
  scripts, to a parent page.

**RedactArea fixers.** Three scripts rewrite calls in C# test files.
- `fix_all_redactarea_final.py`, `fix_redactarea_phase2.py` and
  `fix_redactarea_phase4.py` add a path argument to `RedactArea(...)` calls
  and repair calls that earlier passes broke.
- Each picks the test's input-path variable from what its regular
  expressions find.

The regular expressions are not modelled. What they capture comes in as
data:
- per-pattern capture lists or first matches, for the path variable;
- per-line matcher functions from a line to its groups, for the
  line-by-line fixers;
- match spans, for the phase 2 splice.

Python's own semantics are written out:
- slices, with negative bounds, clipping and inverted ranges (`PySlice`);
- truthiness of an optional page name;
- `readlines` (`ReadLines`, cutting a text after each newline) together
  with `''.join`;
- `split('\n')` and `'\n'.join`;
- `strip()`, over every character `str.isspace()` accepts;
- `in` on strings, `count`, and `zip`.

Modules:
- `Wrappers`, `Text`, `PySlice`: `Option` and the Python string, list and
  slice operations the scripts use.
- `WikiPage`: `write_wiki_page`, shared by the five splitters. The
  splitters differ in link syntax, index page and parent line.
- `PageChain`: the per-row loop of the splitters (slice, prev/next, write).
  Also contiguous tables (`Tiles`) and what a contiguous table covers.
- `SplitPdfSpec`, `SplitPdfSpecV2`, `SplitPdfSpecV3`, `SplitPdf20Spec`,
  `SplitPdf20SpecV2`: the five scripts' tables and drivers.
- `CallSites`: the groups the fixers' regular expressions capture.
- `PathChoice`: the "first usable match, skipping output names" rule of
  phase 2 and phase 4.
- `FixAllRedactAreaFinal`, `FixRedactAreaPhase2`, `FixRedactAreaPhase4`:
  the three fixers.

## Model

| member | source | states |
|---|---|---|
| WikiPage.WritePage | scripts/split-pdf-spec-v2.py:96-121 | the written file is `<filename>.md` and holds header, then body, then footer; the returned count is the body's length only |
| WikiPage.BuildHeader | scripts/split-pdf-spec-v2.py:100-106 | the header built by successive appends is the title line, the "Part of" line, the navigation line and the rule |
| WikiPage.BuildFooter | scripts/split-pdf-spec-v2.py:108-113 | the footer built by successive appends is the rule, the same navigation line and a newline |
| WikiPage.HeaderAndFooterShareNavLine | scripts/split-pdf-spec.py:42-54 | the footer's navigation line is, character for character, the header's |
| WikiPage.PageLayout | scripts/split-pdf-spec.py:42-59 | the page starts with the title line, the optional "Part of" line and the navigation line; the body sits unchanged between header and footer; the page ends in a newline |
| WikiPage.NavLineShowsNeighbours | scripts/split-pdf-spec.py:44-46 | the navigation line opens a link exactly when there is a previous page, and ends in a bare `Next →` exactly when there is no next page |
| WikiPage.EmptyNeighbourIsAbsent | scripts/split-pdf-spec.py:44-46 | an empty neighbour name is falsy and renders exactly like a missing one |
| PageChain.SplitRows | scripts/split-pdf-spec-v2.py:123-140 | the loop writes one page per row, in table order; the filenames come back in table order; page k is named after row k |
| PageChain.WriteRow | scripts/split-pdf-spec-v2.py:130-137 | one iteration: the page for row i, with its clamped slice, its neighbours and the parent |
| PageChain.ChainEnds | scripts/split-pdf-spec.py:134-135 | the first page has no previous link and the last has no next link; every other page links to its table neighbours' filenames |
| PageChain.LinksStayInTable | scripts/split-pdf-spec-v3.py:53-54 | every prev/next link names another row of the same table |
| PageChain.TilesAppend | scripts/split-pdf20-spec.py:87 | two contiguous tables that meet make one contiguous table |
| PageChain.UnclampedCoverage | scripts/split-pdf-spec.py:132-140 | without clamping, the bodies of a contiguous table from `first` to `last` are together the slice `lines[first-1 : last-1]`, once and in order |
| PageChain.ClampedCoverage | scripts/split-pdf-spec-v3.py:51-56 | with clamping, the bodies together are `lines[first-1 : min(last, n)-1]` |
| PageChain.ClampedTableDropsLastLine | scripts/split-pdf-spec-v2.py:131-136 | when the table reaches past the file's end, the bodies together stop one line short of it: the file's last line is on no page |
| PageChain.ClampedBodySkipsLastLine | scripts/split-pdf-spec-v2.py:131-136 | a clamped body never contains the file's last line |
| PageChain.ClampDropsLastLine | scripts/split-pdf-spec-v2.py:131-136 | for a row that runs past the end, the unclamped slice ends with the last line and the clamped one is that slice minus it |
| PageChain.RowPastEndIsEmpty | scripts/split-pdf-spec-v3.py:52-55 | a row that starts past the file's end gets an empty body |
| PySlice.SliceInverted | scripts/split-pdf-spec-v2.py:136 | a slice whose bounds meet or cross after clipping is empty |
| PySlice.SliceJoin | scripts/split-pdf-spec.py:138 | adjacent slices concatenate to the slice spanning both |
| SplitPdfSpec.ChaptersTile | scripts/split-pdf-spec.py:15-32 | `CHAPTERS` starts at line 1, each end equals the next start, and it ends at 18369 |
| SplitPdfSpec.SplitSpec | scripts/split-pdf-spec.py:123-142 | one Markdown-linked page per chapter, named after its row, unclamped; the reported count is `len(CHAPTERS) + 1`, 17 |
| Text.ReadLines | scripts/split-pdf-spec.py:34-36 | `readlines` cuts the text into non-empty lines that joined back give the text; each ends at its first newline and only the last may lack one |
| SplitPdfSpec.ChaptersCoverText | scripts/split-pdf-spec.py:125-140 | over a text read with `readlines` that has no more lines than the last chapter reaches, the chapter bodies joined together are the whole text |
| SplitPdfSpec.ChaptersCoverSpec | scripts/split-pdf-spec.py:132-140 | the chapter bodies together are lines 1..18368 of the input (as far as it goes), each exactly once and in order |
| SplitPdfSpec.ChapterChain | scripts/split-pdf-spec.py:134-135 | the chain's two ends have no outward link, and the front matter and last chapter link to their single neighbours |
| SplitPdfSpecV2.Chapter7Tiles | scripts/split-pdf-spec-v2.py:58-67 | the chapter 7 section table runs contiguously and increasing from line 9 to 2603 |
| SplitPdfSpecV2.Chapter8Tiles | scripts/split-pdf-spec-v2.py:70-79 | the chapter 8 section table runs contiguously and increasing from line 9 to 2994 |
| SplitPdfSpecV2.Chapter9Tiles | scripts/split-pdf-spec-v2.py:82-90 | the chapter 9 section table runs contiguously and increasing from line 9 to 1608 |
| SplitPdfSpecV2.SplitChapterIntoSections | scripts/split-pdf-spec-v2.py:123-140 | one page per section, clamped, with the chapter as parent; the section filenames come back in table order |
| SplitPdfSpecV2.SplitLargeChapters | scripts/split-pdf-spec-v2.py:326-348 | a missing chapter file produces no page; the three chapters together give 23 pages |
| SplitPdfSpecV2.Chapter7DropsLastLine | scripts/split-pdf-spec-v2.py:131-136 | for a chapter 7 file no longer than its table, the sections miss the file's last line |
| SplitPdfSpecV2.CreateChapterIndex | scripts/split-pdf-spec-v2.py:142-156 | the index text is the lower-cased introduction, one `- [[filename\|title]]` bullet line per section in table order, then the closing lines |
| SplitPdfSpecV2.ChapterIndexListsEverySection | scripts/split-pdf-spec-v2.py:142-156 | read back line by line, the index is the introduction lines, exactly one bullet per section in order, and the closing lines |
| SplitPdfSpecV2.JoinIndexLines | scripts/split-pdf-spec-v2.py:142-156 | joining those lines with newlines gives the index text back |
| SplitPdfSpecV3.AnnexTableTiles | scripts/split-pdf-spec-v3.py:59-72 | the annex table is contiguous and increasing |
| SplitPdfSpecV3.Chapter10Tiles | scripts/split-pdf-spec-v3.py:75-80 | the chapter 10 table is contiguous and increasing |
| SplitPdfSpecV3.Chapter11Tiles | scripts/split-pdf-spec-v3.py:83-88 | the chapter 11 table is contiguous and increasing |
| SplitPdfSpecV3.Chapter12Tiles | scripts/split-pdf-spec-v3.py:91-100 | the chapter 12 table is contiguous and increasing |
| SplitPdfSpecV3.Chapter13Tiles | scripts/split-pdf-spec-v3.py:103-108 | the chapter 13 table is contiguous and increasing |
| SplitPdfSpecV3.Chapter14Tiles | scripts/split-pdf-spec-v3.py:111-117 | the chapter 14 table is contiguous and increasing |
| SplitPdfSpecV3.SplitFile | scripts/split-pdf-spec-v3.py:42-56 | a missing source file gives no page; otherwise one clamped page per section, with the given parent |
| SplitPdfSpecV3.SplitRemaining | scripts/split-pdf-spec-v3.py:119-165 | the six calls' pages, in order; 37 pages when every source is present |
| SplitPdf20Spec.ChaptersTile | scripts/split-pdf20-spec.py:48-64 | the chapter table runs contiguously from line 1 to 63701 |
| SplitPdf20Spec.AnnexesTile | scripts/split-pdf20-spec.py:67-85 | the annex table runs contiguously from 63701 to 83010 |
| SplitPdf20Spec.AllSectionsTile | scripts/split-pdf20-spec.py:48-87 | chapters followed by annexes run contiguously from line 1 to 83010 |
| SplitPdf20Spec.SplitChapters | scripts/split-pdf20-spec.py:44-97 | the combined table is returned unchanged; one clamped page per row with `PDF20-Spec-Index` as parent |
| SplitPdf20Spec.SplitSpec | scripts/split-pdf20-spec.py:381-398 | the reported total is the number of chapter and annex pages plus 2, 34 |
| SplitPdf20Spec.ChainCrossesIntoAnnexes | scripts/split-pdf20-spec.py:87-93 | the last chapter's next link is the first annex, and the first annex's previous link is the last chapter |
| SplitPdf20Spec.SectionsCoverSpec | scripts/split-pdf20-spec.py:88-94 | the bodies together are `lines[0 : min(83010, n)-1]`; for a file within the table, everything but its last line |
| SplitPdf20SpecV2.SplitFile | scripts/split-pdf20-spec-v2.py:43-52 | one clamped page per section, all sliced from the one full input, with the given parent |
| SplitPdf20SpecV2.SplitLargeChapters | scripts/split-pdf20-spec-v2.py:135-161 | the six calls' pages in order; the reported total is their number, 56 |
| SplitPdf20SpecV2.SixSplitsCount | scripts/split-pdf20-spec-v2.py:159-161 | the total is the sum of the six table lengths, 56 |
| SplitPdf20SpecV2.Chapter7Tiles | scripts/split-pdf20-spec-v2.py:56-68 | the chapter 7 table runs contiguously from line 1954 and ends at 11086 |
| SplitPdf20SpecV2.Chapter8Tiles | scripts/split-pdf20-spec-v2.py:71-81 | the chapter 8 table starts at 11086, where chapter 7 ends, and runs contiguously to 21413 |
| SplitPdf20SpecV2.Chapter9Tiles | scripts/split-pdf20-spec-v2.py:84-94 | the chapter 9 table runs contiguously from 21413 to 26177 |
| SplitPdf20SpecV2.Chapter12Tiles | scripts/split-pdf20-spec-v2.py:97-109 | the chapter 12 table runs contiguously from 31242 to 45341 |
| SplitPdf20SpecV2.Chapter13Tiles | scripts/split-pdf20-spec-v2.py:112-120 | the chapter 13 table runs contiguously from 45341 to 53394 |
| SplitPdf20SpecV2.Chapter14Tiles | scripts/split-pdf20-spec-v2.py:123-133 | the chapter 14 table runs contiguously from 53394 to 63701 |
| SplitPdf20SpecV2.SplitsRefineChapters | scripts/split-pdf20-spec-v2.py:142-157 | each split's parent is its chapter's page, and its sections tile exactly that chapter's line range in split-pdf20-spec.py |
| SplitPdf20SpecV2.SectionsMatchChapterPage | scripts/split-pdf20-spec-v2.py:43-52 | the section bodies of a chapter are together the body of that chapter's own page |
| SplitPdf20SpecV2.ChainsStopAtChapterBorders | scripts/split-pdf20-spec-v2.py:43-52 | for each of the six calls, the first section starts on its chapter's first line with no previous link and the last ends on the chapter's end with no next link |
| SplitPdf20SpecV2.ChainsStayWithinChapter | scripts/split-pdf20-spec-v2.py:49-50 | an example of the borders: the last chapter 7 section has no next link and the first chapter 8 section no previous link, though their lines meet |
| PathChoice.FirstUsable | scripts/fix_redactarea_phase2.py:37-46 | the choice is the default or some pattern's match; a match that names an output is never chosen |
| PathChoice.FindFirstUsable | scripts/fix_redactarea_phase2.py:37-46 | the loop, which skips an output match with `continue` (phase 4 writes the same test as a positive guard, scripts/fix_redactarea_phase4.py:25-32), returns the first usable match, else the default |
| PathChoice.SkippedPatternsIgnored | scripts/fix_redactarea_phase2.py:41-43 | patterns with no match or an output name do not affect the choice |
| PathChoice.PickAt | scripts/fix_redactarea_phase2.py:37-44 | the first usable match, after only unusable ones, is the choice |
| PathChoice.NoOutputLetters | scripts/fix_redactarea_phase2.py:42 | a name without `r` and `o` in either case is never taken for an output |
| PathChoice.RedactedPathNamesOutput | scripts/fix_redactarea_phase2.py:33 | `redactedPath` is always taken for an output |
| FixRedactAreaPhase2.FindPathVariable | scripts/fix_redactarea_phase2.py:26-46 | the first usable match of the six patterns, else `pdfPath` |
| FixRedactAreaPhase2.PathVariableChoice | scripts/fix_redactarea_phase2.py:28-46 | the choice is `pdfPath`, `inputPath`, `filePath` or `testPath` if declared, in that order, then a usable `PdfReader.Open` argument, then `pdfPath`; the `redactedPath` pattern never decides |
| FixRedactAreaPhase2.SpliceAll | scripts/fix_redactarea_phase2.py:74-84 | splicing the spans from last to first gives the same text as replacing each span, left to right, in one pass |
| FixRedactAreaPhase2.FixFile | scripts/fix_redactarea_phase2.py:48-91 | an unreadable file or a file with no match counts 0 and writes nothing; otherwise the rewrite is written and the number of matches returned |
| FixRedactAreaPhase2.RewriteLength | scripts/fix_redactarea_phase2.py:74-84 | the new length is the old one plus, per span, the replacement's length minus the span's |
| FixRedactAreaPhase2.RewriteOwnText | scripts/fix_redactarea_phase2.py:74-84 | where every span already reads as its replacement, the text is unchanged |
| FixRedactAreaPhase2.RewriteKeepsEnds | scripts/fix_redactarea_phase2.py:74-84 | text before the first span and after the last one is kept |
| FixRedactAreaPhase2.ReplacementNamesPathVariable | scripts/fix_redactarea_phase2.py:77-81 | each replacement starts `.RedactArea(` with the stripped first argument, ends with the stripped second argument followed by the path variable as the last argument and the closing parenthesis |
| Text.Strip | scripts/fix_redactarea_phase2.py:77-78 | `strip()` keeps a contiguous piece of its argument, cuts only white space on either side, and keeps no white space at either end |
| Text.StripIdempotent | scripts/fix_redactarea_phase2.py:77-78 | stripping a stripped argument changes nothing |
| FixAllRedactAreaFinal.FindPathVariables | scripts/fix_all_redactarea_final.py:25-50 | the nested loops collect every grouped capture not excluded, and the preference loop picks from them |
| FixAllRedactAreaFinal.CollectNames | scripts/fix_all_redactarea_final.py:34-40 | `found_vars` is the kept captures of every pattern, in pattern order |
| FixAllRedactAreaFinal.CollectMatches | scripts/fix_all_redactarea_final.py:36-40 | one pattern adds its non-excluded captures in order, and nothing when it has no group index |
| FixAllRedactAreaFinal.PickPreferred | scripts/fix_all_redactarea_final.py:43-48 | the loop returns the first preferred name present, else the first name found |
| FixAllRedactAreaFinal.KeepFilters | scripts/fix_all_redactarea_final.py:39 | every kept name was captured and is not `redactedPath`, `outputPath` or `output` |
| FixAllRedactAreaFinal.ChoiceNeverExcluded | scripts/fix_all_redactarea_final.py:39-50 | the returned name is never an excluded one |
| FixAllRedactAreaFinal.CollectedFromGroupedPatterns | scripts/fix_all_redactarea_final.py:27-40 | the candidates are the kept `var`, then `string`, then `PdfReader.Open(<identifier>` captures |
| FixAllRedactAreaFinal.LiteralOpenIgnored | scripts/fix_all_redactarea_final.py:30-37 | matches of the literal-string pattern never change the choice |
| FixAllRedactAreaFinal.ChoicePreference | scripts/fix_all_redactarea_final.py:43-50 | `pdfPath`, else `inputPath`, else `filePath`, else `testPath` when present; otherwise the first candidate; `pdfPath` when there is none |
| FixAllRedactAreaFinal.LineFix | scripts/fix_all_redactarea_final.py:79-126 | only a `RedactArea(` line that is not the declaration, not a comment and not already passing the variable is rewritten, and its rewrite passes the variable |
| FixAllRedactAreaFinal.FixLine | scripts/fix_all_redactarea_final.py:77-128 | one pass of the loop body gives the line's rewrite, or the line itself, and reports whether a rewrite happened |
| FixAllRedactAreaFinal.FixLines | scripts/fix_all_redactarea_final.py:73-128 | the loop with `continue` emits each line's rewrite or the line itself, and counts the rewrites |
| FixAllRedactAreaFinal.FixFile | scripts/fix_all_redactarea_final.py:52-144 | an unreadable file counts 0; a file is written exactly when `fixes` is not 0, as the rewritten lines joined by newlines |
| FixAllRedactAreaFinal.TwoArgNeverFires | scripts/fix_all_redactarea_final.py:116-117 | the two-argument branch is dead: replacing its matcher by one that never matches changes no line |
| FixAllRedactAreaFinal.RewriteChangesLine | scripts/fix_all_redactarea_final.py:82-126 | a line is rewritten exactly when its written form differs from it |
| FixAllRedactAreaFinal.NewLineIdempotent | scripts/fix_all_redactarea_final.py:82-85 | a rewritten line is left alone by a second pass with the same variable |
| FixAllRedactAreaFinal.NothingWrittenIffUnchanged | scripts/fix_all_redactarea_final.py:128-131 | `fixes` is the number of positions where input and output lines differ, and it is 0 exactly when every line is unchanged |
| FixAllRedactAreaFinal.WrittenFileKeepsLines | scripts/fix_all_redactarea_final.py:73-133 | the written file has as many lines as the input, and a second pass with the same variable fixes nothing |
| FixRedactAreaPhase4.FindPathVar | scripts/fix_redactarea_phase4.py:17-32 | the first usable match of the three patterns, else `testPdf` |
| FixRedactAreaPhase4.DeclaredNamesUsable | scripts/fix_redactarea_phase4.py:20-21 | none of the five names the declaration patterns capture is taken for an output |
| FixRedactAreaPhase4.DeclarationDecides | scripts/fix_redactarea_phase4.py:19-30 | a captured `var` declaration decides the choice, and without one a captured `string` declaration does |
| FixRedactAreaPhase4.FixLine | scripts/fix_redactarea_phase4.py:41-82 | the five sequential tests, all against the original line, amount to a priority list: pattern 5 over 4 over 3 over 2 over 1 over the line itself |
| FixRedactAreaPhase4.FixContent | scripts/fix_redactarea_phase4.py:34-84 | the output is the fixed lines, one per input line, joined by newlines |
| FixRedactAreaPhase4.CountChanges | scripts/fix_redactarea_phase4.py:133 | the count is the number of positions where the zipped lines differ |
| FixRedactAreaPhase4.ProcessFile | scripts/fix_redactarea_phase4.py:118-135 | the fixed text is written exactly when it differs from the original, and then its changed lines are counted; otherwise the count is 0 |
| FixRedactAreaPhase4.UnmatchedLineUnchanged | scripts/fix_redactarea_phase4.py:41-82 | a line no pattern applies to is emitted unchanged |
| FixRedactAreaPhase4.TwoArgNeedsBareLine | scripts/fix_redactarea_phase4.py:66-71 | on a line holding `renderDpi` or the variable, pattern 4 never matters |
| FixRedactAreaPhase4.OptionsNeedBatchLine | scripts/fix_redactarea_phase4.py:74-80 | off `BatchRedactService`/`RedactMatches` lines without options, pattern 5 never matters |
| FixRedactAreaPhase4.OptionsRewriteSettles | scripts/fix_redactarea_phase4.py:74-80 | pattern 5's output carries its options, so pattern 5 never applies to it again |
| FixRedactAreaPhase4.ChangesCountedExactly | scripts/fix_redactarea_phase4.py:37-84 | the output has as many lines as the input, and the changed-line count is 0 exactly when the text is unchanged |
| Text.DiffUpToZero | scripts/fix_redactarea_phase4.py:133 | no difference is counted exactly when the zipped lines agree |
| Text.JoinSplit | scripts/fix_all_redactarea_final.py:73-133 | joining the split lines gives the text back |
| Text.SplitJoin | scripts/fix_all_redactarea_final.py:73-133 | splitting joined newline-free lines gives the lines back |
| Text.PresentAndAbsent | scripts/fix_all_redactarea_final.py:117 | no string both contains a comma and has zero commas |

## Left out

- File reading and writing are left out. This covers `os.path.exists`, backups and their paths, printing, the `Logger` and log files, and the timestamp. A file that cannot be read or does not exist is an `Option` input, and a written file is a returned value.
- `dotnet build` and the scraping of compiler errors are left out: they are an external tool.
- The regular-expression engine is left out. Its matches, groups and spans are inputs. Contracts that depend on what a pattern can or cannot match take that as a hypothesis, such as the spans in `SpansFrom`.
- fix_redactarea_calls.py and fix_redactarea_phase3.py are left out: once `re.sub` is abstracted, nothing is left in them.
- The constant pages are left out: `create_index_page`, `create_index`, `create_glossary`, `create_concept_glossary`, `update_index_page` and the `CONCEPTS` map. They write fixed literals.
- The `size_kb` float that split-pdf20-spec.py's `write_wiki_page` returns is left out. So are the byte and kilobyte figures the splitters print. These are display only; split-pdf-spec-v2.py's `len(content)` is modelled.
- The hard-coded lists of test files and chapter files in the scripts' `main` functions are left out, apart from the chapter, section and annex tables, which are modelled.
- Text.Lower: `str.lower()` is modelled on ASCII letters only. Other letters are left as they are, so a title with non-ASCII capitals would be lower-cased differently.
- FixAllRedactAreaFinal.NewLineIdempotent and FixAllRedactAreaFinal.WrittenFileKeepsLines: a second pass is stated with the same path variable. The script would choose the variable again from the new file's matches, which are inputs here.
- FixAllRedactAreaFinal.WrittenFileKeepsLines: this assumes no rewrite holds a line break. The captured prefix and suffix of a `(.*)` group on one line cannot hold one, but the matchers here are arbitrary functions.
- FixRedactAreaPhase4.ChangesCountedExactly: this assumes no fixed line holds a line break, for the same reason.
- FixAllRedactAreaFinal.FixFile: the path variable is chosen from the capture lists passed in, not recomputed from the file's text.
- PathChoice.FirstUsable: phase 2 and phase 4 use `re.search`, so only each pattern's first match is an input.
