/**
 * fix_redactarea_phase4.py: repair `RedactArea` calls that earlier passes
 * left with the path in the wrong slot, with `renderDpi` given twice or
 * without its colon, or without the path at all, and give
 * `BatchRedactService.RedactMatches` calls their missing options argument.
 * Every line is tested against all five patterns; the last one that
 * applies decides the line.
 */
module FixRedactAreaPhase4 {
  import opened Wrappers
  import opened Text
  import opened CallSites
  import opened PathChoice

  /** The first match of each path pattern, in order: `var <name> =`, `string <name> =`, `PdfReader.Open(<name>,`. */
  datatype PathHits = PathHits(varDecl: Option<string>, stringDecl: Option<string>, readerOpen: Option<string>)

  function FirstMatches(h: PathHits): seq<Option<string>> {
    [h.varDecl, h.stringDecl, h.readerOpen]
  }

  const DefaultPathVar: string := "testPdf"

  /** The names the two declaration patterns can capture. */
  const DeclaredNames: seq<string> := ["testPdf", "pdfPath", "inputPath", "filePath", "inputPdf"]

  /** `find_path_var`: the first usable match in pattern order, else `testPdf`. */
  method FindPathVar(h: PathHits) returns (v: string)
    ensures v == FirstUsable(FirstMatches(h), DefaultPathVar)
  {
    v := FindFirstUsable(FirstMatches(h), DefaultPathVar);
  }

  /** None of the declarable names is taken for an output path. */
  lemma DeclaredNamesUsable(k: nat)
    requires k < |DeclaredNames|
    ensures !NamesOutput(DeclaredNames[k])
  {
    NoOutputLetters(DeclaredNames[k]);
  }

  /**
   * A declaration the first two patterns capture always decides: the `var`
   * declaration when there is one, the `string` declaration otherwise.
   */
  lemma DeclarationDecides(h: PathHits, k: nat)
    requires k < |DeclaredNames|
    ensures h.varDecl == Some(DeclaredNames[k]) ==>
              FirstUsable(FirstMatches(h), DefaultPathVar) == DeclaredNames[k]
    ensures h.varDecl.None? && h.stringDecl == Some(DeclaredNames[k]) ==>
              FirstUsable(FirstMatches(h), DefaultPathVar) == DeclaredNames[k]
  {
    DeclaredNamesUsable(k);
    var ms := FirstMatches(h);
    if h.varDecl == Some(DeclaredNames[k]) {
      PickAt(ms, 0, DeclaredNames[k], DefaultPathVar);
    } else if h.varDecl.None? && h.stringDecl == Some(DeclaredNames[k]) {
      PickAt(ms, 1, DeclaredNames[k], DefaultPathVar);
    }
  }

  /** The five per-line regular expressions, in the order the script applies them. */
  datatype Matchers = Matchers(wrongSlot: string -> Option<ThreeArgDpiCall>,
                               doubleDpi: string -> Option<DoubleDpiCall>,
                               bareDpi: string -> Option<ThreeArgDpiCall>,
                               twoArg: string -> Option<TwoArgCall>,
                               matches: string -> Option<MatchesCall>)

  /** Pattern 1: the third argument is replaced by the path variable. */
  function WrongSlotRewrite(m: ThreeArgDpiCall, v: string): string {
    m.prefix + ".RedactArea(" + m.arg1 + ", " + m.arg2 + ", " + v + ", renderDpi: " + m.dpi + ")" + m.suffix
  }

  /** Pattern 2: the first of two `renderDpi:` values is kept. */
  function DoubleDpiRewrite(m: DoubleDpiCall): string {
    m.prefix + ".RedactArea(" + m.arg1 + ", " + m.arg2 + ", " + m.arg3 + ", renderDpi: " + m.dpi1 + ")" + m.suffix
  }

  /** Pattern 3: `renderDpi, N` becomes `renderDpi: N`. */
  function BareDpiRewrite(m: ThreeArgDpiCall): string {
    m.prefix + ".RedactArea(" + m.arg1 + ", " + m.arg2 + ", " + m.arg3 + ", renderDpi: " + m.dpi + ")" + m.suffix
  }

  /** Pattern 4: the path variable is added as third argument. */
  function TwoArgRewrite(m: TwoArgCall, v: string): string {
    m.prefix + ".RedactArea(" + m.arg1 + ", " + m.arg2 + ", " + v + ");" + m.suffix
  }

  const OptionsArgument: string := "new RedactionOptions { UseGlyphLevelRedaction = true }"

  /** Pattern 5: glyph-level options are added as fourth argument. */
  function OptionsRewrite(m: MatchesCall): string {
    m.prefix + ".RedactMatches(" + m.arg1 + ", " + m.arg2 + ", " + m.arg3 + ", " + OptionsArgument + ")" + m.suffix
  }

  /** Pattern 4 applies: a match on a line without `renderDpi` or the variable, with a comma-free second argument. */
  predicate TwoArgFires(line: string, v: string, M: Matchers) {
    M.twoArg(line).Some? && !Contains(line, "renderDpi") && !Contains(line, v)
    && CountChar(M.twoArg(line).value.arg2, ',') == 0
  }

  /** The line is a `BatchRedactService.RedactMatches` call still without options. */
  predicate MissingOptions(line: string) {
    Contains(line, "BatchRedactService") && Contains(line, "RedactMatches") && !Contains(line, "new RedactionOptions")
  }

  /** Pattern 5 applies: such a line, a match, and a comma-free third argument. */
  predicate OptionsFire(line: string, M: Matchers) {
    MissingOptions(line) && M.matches(line).Some? && CountChar(M.matches(line).value.arg3, ',') == 0
  }

  /** The fixed line, read as a priority list: the latest pattern that applies wins. */
  function FixedLine(line: string, v: string, M: Matchers): string {
    if OptionsFire(line, M) then OptionsRewrite(M.matches(line).value)
    else if TwoArgFires(line, v, M) then TwoArgRewrite(M.twoArg(line).value, v)
    else if M.bareDpi(line).Some? then BareDpiRewrite(M.bareDpi(line).value)
    else if M.doubleDpi(line).Some? then DoubleDpiRewrite(M.doubleDpi(line).value)
    else if M.wrongSlot(line).Some? then WrongSlotRewrite(M.wrongSlot(line).value, v)
    else line
  }

  function FixedLines(lines: seq<string>, v: string, M: Matchers): (r: seq<string>)
    ensures |r| == |lines|
  {
    seq(|lines|, i requires 0 <= i < |lines| => FixedLine(lines[i], v, M))
  }

  /** The body of `fix_content`'s loop: five sequential tests, all against the original line. */
  method FixLine(line: string, v: string, M: Matchers) returns (fixedLine: string)
    ensures fixedLine == FixedLine(line, v, M)
  {
    fixedLine := line;
    var wrongSlot := M.wrongSlot(line);
    if wrongSlot.Some? {
      fixedLine := WrongSlotRewrite(wrongSlot.value, v);
    }
    var doubleDpi := M.doubleDpi(line);
    if doubleDpi.Some? {
      fixedLine := DoubleDpiRewrite(doubleDpi.value);
    }
    var bareDpi := M.bareDpi(line);
    if bareDpi.Some? {
      fixedLine := BareDpiRewrite(bareDpi.value);
    }
    var twoArg := M.twoArg(line);
    if twoArg.Some? && !Contains(line, "renderDpi") && !Contains(line, v) {
      if CountChar(twoArg.value.arg2, ',') == 0 {
        fixedLine := TwoArgRewrite(twoArg.value, v);
      }
    }
    if Contains(line, "BatchRedactService") && Contains(line, "RedactMatches") && !Contains(line, "new RedactionOptions") {
      var matches := M.matches(line);
      if matches.Some? {
        if CountChar(matches.value.arg3, ',') == 0 {
          fixedLine := OptionsRewrite(matches.value);
        }
      }
    }
  }

  /** `fix_content`: fix every line and join them back. */
  method FixContent(content: string, h: PathHits, M: Matchers) returns (fixed: string)
    ensures fixed == Join(FixedLines(Split(content), FirstUsable(FirstMatches(h), DefaultPathVar), M))
  {
    var pathVar := FindPathVar(h);
    var originalLines := Split(content);
    var fixedLines: seq<string> := [];
    for i := 0 to |originalLines|
      invariant |fixedLines| == i
      invariant forall j :: 0 <= j < i ==> fixedLines[j] == FixedLine(originalLines[j], pathVar, M)
    {
      var fixedLine := FixLine(originalLines[i], pathVar, M);
      fixedLines := fixedLines + [fixedLine];
    }
    assert fixedLines == FixedLines(originalLines, pathVar, M);
    fixed := Join(fixedLines);
  }

  /** `sum(1 for a, b in zip(...) if a != b)`. */
  method CountChanges(a: seq<string>, b: seq<string>) returns (changes: nat)
    ensures changes == DiffCount(a, b)
  {
    var n := if |a| <= |b| then |a| else |b|;
    changes := 0;
    for i := 0 to n
      invariant changes == DiffUpTo(a, b, i)
    {
      if a[i] != b[i] {
        changes := changes + 1;
      }
    }
  }

  /**
   * One file of `main`: the fixed text is written only when it differs from
   * the original, and then the changed lines are counted.
   */
  method ProcessFile(original: string, h: PathHits, M: Matchers) returns (written: Option<string>, changes: nat)
    ensures var fixed := Join(FixedLines(Split(original), FirstUsable(FirstMatches(h), DefaultPathVar), M));
            && (written.Some? <==> fixed != original)
            && (written.Some? ==> written.value == fixed && changes == DiffCount(Split(original), Split(fixed)))
            && (written.None? ==> changes == 0)
  {
    var fixed := FixContent(original, h, M);
    if fixed != original {
      written := Some(fixed);
      changes := CountChanges(Split(original), Split(fixed));
    } else {
      written := None;
      changes := 0;
    }
  }

  /** A line that no pattern applies to comes back as it was. */
  lemma UnmatchedLineUnchanged(line: string, v: string, M: Matchers)
    requires M.wrongSlot(line).None? && M.doubleDpi(line).None? && M.bareDpi(line).None?
    requires !TwoArgFires(line, v, M) && !OptionsFire(line, M)
    ensures FixedLine(line, v, M) == line
  {
  }

  /** On a line that mentions `renderDpi` or the variable, pattern 4's matcher never matters. */
  lemma TwoArgNeedsBareLine(line: string, v: string, M: Matchers)
    requires Contains(line, "renderDpi") || Contains(line, v)
    ensures FixedLine(line, v, M) == FixedLine(line, v, M.(twoArg := _ => None))
  {
  }

  /** Off the `BatchRedactService.RedactMatches` lines without options, pattern 5's matcher never matters. */
  lemma OptionsNeedBatchLine(line: string, v: string, M: Matchers)
    requires !MissingOptions(line)
    ensures FixedLine(line, v, M) == FixedLine(line, v, M.(matches := _ => None))
  {
  }

  /** Pattern 5's rewrite carries its options, so it never applies to its own output. */
  lemma OptionsRewriteSettles(m: MatchesCall)
    ensures !MissingOptions(OptionsRewrite(m))
  {
    OptionsRewriteHasOptions(m);
  }

  /** The options pattern's output holds `new RedactionOptions`. */
  lemma OptionsRewriteHasOptions(m: MatchesCall)
    ensures Contains(OptionsRewrite(m), "new RedactionOptions")
  {
    var pre := m.prefix + ".RedactMatches(" + m.arg1 + ", " + m.arg2 + ", " + m.arg3 + ", ";
    var mid := "new RedactionOptions";
    var post := " { UseGlyphLevelRedaction = true })" + m.suffix;
    assert OptionsRewrite(m) == pre + mid + post;
    ContainsMiddle(pre, mid, post);
  }

  /**
   * When no fixed line holds a line break, the output has exactly as many
   * lines as the input, and the changed-line count is zero exactly when
   * the text is unchanged, that is, exactly when nothing is written.
   */
  lemma ChangesCountedExactly(original: string, v: string, M: Matchers)
    requires forall i :: 0 <= i < |Split(original)| ==> '\n' !in FixedLine(Split(original)[i], v, M)
    ensures var fixed := Join(FixedLines(Split(original), v, M));
            && |Split(fixed)| == |Split(original)|
            && (DiffCount(Split(original), Split(fixed)) == 0 <==> fixed == original)
  {
    var lines := Split(original);
    var fl := FixedLines(lines, v, M);
    SplitJoin(fl);
    JoinSplit(original);
    DiffUpToZero(lines, fl, |lines|);
    assert lines[..|lines|] == lines && fl[..|lines|] == fl;
    if Join(fl) == original {
      JoinInjective(fl, lines);
    }
  }
}
