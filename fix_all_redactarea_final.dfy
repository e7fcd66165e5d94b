/**
 * fix_all_redactarea_final.py: pick the test's input-path variable from
 * every declaration and `PdfReader.Open` call the patterns find, then walk
 * the file line by line and give each two-argument `RedactArea` call that
 * variable as its third argument.
 */
module FixAllRedactAreaFinal {
  import opened Wrappers
  import opened Text
  import opened CallSites

  /**
   * One path pattern's matches: the names its group captured, in order of
   * appearance, and whether the pattern has a group index at all (the
   * literal-string `PdfReader.Open("...")` pattern has none).
   */
  datatype Pattern = Pattern(captures: seq<string>, grouped: bool)

  /**
   * What the four path patterns find in a file: `var <name> = ... .pdf`,
   * `string <name> = ... .pdf`, `PdfReader.Open("<literal>",` and
   * `PdfReader.Open(<identifier>,`.
   */
  datatype Hits = Hits(varDecl: seq<string>, stringDecl: seq<string>,
                       literalOpen: seq<string>, identOpen: seq<string>)

  function Patterns(h: Hits): seq<Pattern> {
    [Pattern(h.varDecl, true), Pattern(h.stringDecl, true),
     Pattern(h.literalOpen, false), Pattern(h.identOpen, true)]
  }

  /** Names that hold the redacted output, never the input. */
  const Excluded: seq<string> := ["redactedPath", "outputPath", "output"]

  /** The names preferred, best first, when several were found. */
  const PreferenceOrder: seq<string> := ["pdfPath", "inputPath", "filePath", "testPath"]

  const Fallback: string := "pdfPath"

  /** The captured names that survive the exclusion list, in order. */
  function Keep(names: seq<string>): (r: seq<string>)
    ensures |r| <= |names|
  {
    if names == [] then []
    else Keep(names[..|names| - 1]) + (if names[|names| - 1] in Excluded then [] else [names[|names| - 1]])
  }

  /** What one pattern adds to `found_vars`. */
  function Found(p: Pattern): seq<string> {
    if p.grouped then Keep(p.captures) else []
  }

  /** `found_vars` after the given patterns, in pattern order. */
  function Collected(ps: seq<Pattern>): seq<string> {
    if ps == [] then [] else Collected(ps[..|ps| - 1]) + Found(ps[|ps| - 1])
  }

  /** Every kept name was captured, and none is excluded. */
  lemma {:induction false} KeepFilters(names: seq<string>)
    ensures forall x :: x in Keep(names) ==> x in names && x !in Excluded
  {
    if names != [] {
      KeepFilters(names[..|names| - 1]);
    }
  }

  /** No excluded name is ever collected. */
  lemma {:induction false} CollectedExcludesNothing(ps: seq<Pattern>)
    ensures forall x :: x in Collected(ps) ==> x !in Excluded
  {
    if ps != [] {
      CollectedExcludesNothing(ps[..|ps| - 1]);
      KeepFilters(ps[|ps| - 1].captures);
    }
  }

  /** The first preferred name present in `found`, else its first element. */
  function PreferFrom(prefs: seq<string>, found: seq<string>): (v: string)
    requires found != []
    ensures v in found
  {
    if prefs == [] then found[0]
    else if prefs[0] in found then prefs[0]
    else PreferFrom(prefs[1..], found)
  }

  /** The returned name: the fallback when nothing was found. */
  function Choose(found: seq<string>): (v: string)
    ensures v == Fallback || v in found
  {
    if found == [] then Fallback else PreferFrom(PreferenceOrder, found)
  }

  /** `find_path_variables`: collect over every pattern and every match, then choose. */
  method FindPathVariables(h: Hits) returns (v: string)
    ensures v == Choose(Collected(Patterns(h)))
  {
    var found := CollectNames(Patterns(h));
    if |found| > 0 {
      v := PickPreferred(found);
    } else {
      v := Fallback;
    }
  }

  /** The outer loop that fills `found_vars`, pattern by pattern. */
  method CollectNames(patterns: seq<Pattern>) returns (found: seq<string>)
    ensures found == Collected(patterns)
  {
    found := [];
    for p := 0 to |patterns|
      invariant found == Collected(patterns[..p])
    {
      var kept := CollectMatches(patterns[p]);
      found := found + kept;
      assert patterns[..p + 1][..p] == patterns[..p];
    }
    assert patterns[..|patterns|] == patterns;
  }

  /** The inner loop over one pattern's matches. */
  method CollectMatches(pattern: Pattern) returns (kept: seq<string>)
    ensures kept == Found(pattern)
  {
    kept := [];
    var captures := pattern.captures;
    for m := 0 to |captures|
      invariant kept == (if pattern.grouped then Keep(captures[..m]) else [])
    {
      if pattern.grouped {
        var name := captures[m];
        assert captures[..m + 1][..m] == captures[..m];
        if name !in Excluded {
          kept := kept + [name];
        }
      }
    }
    assert captures[..|captures|] == captures;
  }

  /** The loop over the preferred names, falling back to the first name found. */
  method PickPreferred(found: seq<string>) returns (v: string)
    requires found != []
    ensures v == PreferFrom(PreferenceOrder, found)
  {
    for k := 0 to |PreferenceOrder|
      invariant PreferFrom(PreferenceOrder[k..], found) == PreferFrom(PreferenceOrder, found)
    {
      assert PreferenceOrder[k..][1..] == PreferenceOrder[k + 1..];
      if PreferenceOrder[k] in found {
        return PreferenceOrder[k];
      }
    }
    return found[0];
  }

  /** Only the three grouped patterns contribute, in the order they are listed. */
  lemma CollectedFromGroupedPatterns(h: Hits)
    ensures Collected(Patterns(h)) == Keep(h.varDecl) + Keep(h.stringDecl) + Keep(h.identOpen)
  {
    var ps := Patterns(h);
    CollectedPrefix(ps, 1);
    CollectedPrefix(ps, 2);
    CollectedPrefix(ps, 3);
    CollectedPrefix(ps, 4);
    assert ps[..4] == ps;
    var k1, k2, k4 := Found(ps[0]), Found(ps[1]), Found(ps[3]);
    assert Found(ps[2]) == [];
    assert Collected(ps[..3]) == Collected(ps[..2]);
    assert Collected(ps) == k1 + k2 + k4;
  }

  /** Each pattern adds its own names after those of the patterns before it. */
  lemma CollectedPrefix(ps: seq<Pattern>, k: nat)
    requires 0 < k <= |ps|
    ensures Collected(ps[..k]) == Collected(ps[..k - 1]) + Found(ps[k - 1])
    ensures k == 1 ==> Collected(ps[..k - 1]) == []
  {
    assert ps[..k][..k - 1] == ps[..k - 1];
  }

  /** The literal-string `PdfReader.Open` matches never change the choice. */
  lemma LiteralOpenIgnored(h: Hits, literals: seq<string>)
    ensures Choose(Collected(Patterns(h))) == Choose(Collected(Patterns(h.(literalOpen := literals))))
  {
    CollectedFromGroupedPatterns(h);
    CollectedFromGroupedPatterns(h.(literalOpen := literals));
  }

  /** The chosen variable is never one of the excluded output names. */
  lemma ChoiceNeverExcluded(h: Hits)
    ensures Choose(Collected(Patterns(h))) !in Excluded
  {
    CollectedExcludesNothing(Patterns(h));
    assert Fallback !in Excluded;
  }

  /** `PreferFrom` picks the earliest preferred name present, else the first found. */
  lemma {:induction false} PreferFromEarliest(prefs: seq<string>, found: seq<string>, k: nat)
    requires found != [] && k <= |prefs|
    requires forall j :: 0 <= j < k ==> prefs[j] !in found
    ensures k < |prefs| && prefs[k] in found ==> PreferFrom(prefs, found) == prefs[k]
    ensures k == |prefs| ==> PreferFrom(prefs, found) == found[0]
    decreases k
  {
    if k > 0 {
      assert prefs[0] !in found;
      forall j | 0 <= j < k - 1
        ensures prefs[1..][j] !in found
      {
        assert prefs[1..][j] == prefs[j + 1];
      }
      PreferFromEarliest(prefs[1..], found, k - 1);
    }
  }

  /**
   * The preference order: `pdfPath`, then `inputPath`, `filePath` and
   * `testPath` when present, otherwise the first name found, and the
   * fallback when nothing was found.
   */
  lemma ChoicePreference(found: seq<string>, k: nat)
    requires k <= |PreferenceOrder|
    requires forall j :: 0 <= j < k ==> PreferenceOrder[j] !in found
    ensures found == [] ==> Choose(found) == "pdfPath"
    ensures k < |PreferenceOrder| && PreferenceOrder[k] in found ==> Choose(found) == PreferenceOrder[k]
    ensures found != [] && k == |PreferenceOrder| ==> Choose(found) == found[0]
  {
    if found != [] {
      PreferFromEarliest(PreferenceOrder, found, k);
    }
  }

  /** The three per-line regular expressions, tried in this order. */
  datatype Matchers = Matchers(renderDpi: string -> Option<DpiCall>,
                               positional: string -> Option<DpiCall>,
                               twoArg: string -> Option<TwoArgCall>)

  /** A line worth looking at: it calls `RedactArea`, and is neither its declaration nor a comment. */
  predicate IsCallLine(line: string) {
    Contains(line, "RedactArea(") && !Contains(line, "void RedactArea") && !Contains(line, "//")
  }

  /** The line already passes `v` as an argument. */
  predicate AlreadyFixed(line: string, v: string) {
    Contains(line, ", " + v + ",") || Contains(line, ", " + v + ")")
  }

  /** `',' in arg2 and arg2.count(',') == 0`: no string satisfies both. */
  predicate TwoArgGuard(m: TwoArgCall) {
    Contains(m.arg2, ",") && CountChar(m.arg2, ',') == 0
  }

  function RenderDpiRewrite(m: DpiCall, v: string): string {
    m.prefix + ".RedactArea(" + m.arg1 + ", " + m.arg2 + ", " + v + ", renderDpi: " + m.dpi + ")" + m.suffix
  }

  function PositionalRewrite(m: DpiCall, v: string): string {
    m.prefix + ".RedactArea(" + m.arg1 + ", " + m.arg2 + ", " + v + ", " + m.dpi + ")" + m.suffix
  }

  function TwoArgRewrite(m: TwoArgCall, v: string): string {
    m.prefix + ".RedactArea(" + m.arg1 + ", " + m.arg2 + ", " + v + ");" + m.suffix
  }

  /**
   * The rewrite a line gets, `None` when it is left alone: only a call line
   * not already fixed is rewritten, and a rewritten line passes `v`.
   */
  function LineFix(line: string, v: string, M: Matchers): (r: Option<string>)
    ensures r.Some? ==> IsCallLine(line) && !AlreadyFixed(line, v) && AlreadyFixed(r.value, v)
  {
    if !IsCallLine(line) || AlreadyFixed(line, v) then None
    else if M.renderDpi(line).Some? then
      RenderDpiRewriteFixed(M.renderDpi(line).value, v);
      Some(RenderDpiRewrite(M.renderDpi(line).value, v))
    else if M.positional(line).Some? then
      PositionalRewriteFixed(M.positional(line).value, v);
      Some(PositionalRewrite(M.positional(line).value, v))
    else if M.twoArg(line).Some? && TwoArgGuard(M.twoArg(line).value) then
      TwoArgRewriteFixed(M.twoArg(line).value, v);
      Some(TwoArgRewrite(M.twoArg(line).value, v))
    else None
  }

  /** A `renderDpi:` call after its rewrite passes `v`. */
  lemma RenderDpiRewriteFixed(m: DpiCall, v: string)
    ensures AlreadyFixed(RenderDpiRewrite(m, v), v)
  {
    var pre := m.prefix + ".RedactArea(" + m.arg1 + ", " + m.arg2;
    var post := " renderDpi: " + m.dpi + ")" + m.suffix;
    assert RenderDpiRewrite(m, v) == pre + (", " + v + ",") + post;
    ContainsMiddle(pre, ", " + v + ",", post);
  }

  /** A positional-DPI call after its rewrite passes `v`. */
  lemma PositionalRewriteFixed(m: DpiCall, v: string)
    ensures AlreadyFixed(PositionalRewrite(m, v), v)
  {
    var pre := m.prefix + ".RedactArea(" + m.arg1 + ", " + m.arg2;
    var post := " " + m.dpi + ")" + m.suffix;
    assert PositionalRewrite(m, v) == pre + (", " + v + ",") + post;
    ContainsMiddle(pre, ", " + v + ",", post);
  }

  /** A two-argument call after its rewrite passes `v`. */
  lemma TwoArgRewriteFixed(m: TwoArgCall, v: string)
    ensures AlreadyFixed(TwoArgRewrite(m, v), v)
  {
    var pre := m.prefix + ".RedactArea(" + m.arg1 + ", " + m.arg2;
    var post := ";" + m.suffix;
    assert TwoArgRewrite(m, v) == pre + (", " + v + ")") + post;
    ContainsMiddle(pre, ", " + v + ")", post);
  }

  /** The line as it is written back. */
  function NewLine(line: string, v: string, M: Matchers): string {
    match LineFix(line, v, M)
    case Some(l) => l
    case None => line
  }

  function NewLines(lines: seq<string>, v: string, M: Matchers): (r: seq<string>)
    ensures |r| == |lines|
  {
    seq(|lines|, i requires 0 <= i < |lines| => NewLine(lines[i], v, M))
  }

  /** How many of the first `k` lines are rewritten. */
  function FixedUpTo(lines: seq<string>, v: string, M: Matchers, k: nat): nat
    requires k <= |lines|
  {
    if k == 0 then 0 else FixedUpTo(lines, v, M, k - 1) + (if LineFix(lines[k - 1], v, M).Some? then 1 else 0)
  }

  function FixCount(lines: seq<string>, v: string, M: Matchers): nat {
    FixedUpTo(lines, v, M, |lines|)
  }

  /** The loop of `fix_file` over the lines, with its early `continue`s. */
  method FixLines(lines: seq<string>, v: string, M: Matchers) returns (newLines: seq<string>, fixes: nat)
    ensures newLines == NewLines(lines, v, M)
    ensures fixes == FixCount(lines, v, M)
  {
    newLines := [];
    fixes := 0;
    for i := 0 to |lines|
      invariant |newLines| == i
      invariant forall j :: 0 <= j < i ==> newLines[j] == NewLine(lines[j], v, M)
      invariant fixes == FixedUpTo(lines, v, M, i)
    {
      var newLine, fixed := FixLine(lines[i], v, M);
      if fixed {
        fixes := fixes + 1;
      }
      newLines := newLines + [newLine];
    }
  }

  /** One pass of the loop body of `fix_file`; each early `continue` is a `return`. */
  method FixLine(line: string, v: string, M: Matchers) returns (newLine: string, fixed: bool)
    ensures newLine == NewLine(line, v, M)
    ensures fixed <==> LineFix(line, v, M).Some?
  {
    newLine := line;
    fixed := false;
    if Contains(line, "RedactArea(") && !Contains(line, "void RedactArea") && !Contains(line, "//") {
      if Contains(line, ", " + v + ",") || Contains(line, ", " + v + ")") {
        return;
      }
      var renderDpi := M.renderDpi(line);
      if renderDpi.Some? {
        newLine := RenderDpiRewrite(renderDpi.value, v);
        fixed := true;
        return;
      }
      var positional := M.positional(line);
      if positional.Some? {
        newLine := PositionalRewrite(positional.value, v);
        fixed := true;
        return;
      }
      var twoArg := M.twoArg(line);
      if twoArg.Some? && Contains(twoArg.value.arg2, ",") && CountChar(twoArg.value.arg2, ',') == 0 {
        newLine := TwoArgRewrite(twoArg.value, v);
        fixed := true;
        return;
      }
    }
  }

  /**
   * `fix_file`: an unreadable file counts 0; otherwise the lines are fixed
   * and the new text is written only when at least one line changed.
   */
  method FixFile(content: Option<string>, h: Hits, M: Matchers) returns (fixes: nat, written: Option<string>)
    ensures content.None? ==> fixes == 0 && written == None
    ensures content.Some? ==>
              var v := Choose(Collected(Patterns(h)));
              && fixes == FixCount(Split(content.value), v, M)
              && (written.Some? <==> fixes != 0)
              && (written.Some? ==> written.value == Join(NewLines(Split(content.value), v, M)))
  {
    if content.None? {
      return 0, None;
    }
    var pathVar := FindPathVariables(h);
    var lines := Split(content.value);
    var newLines;
    newLines, fixes := FixLines(lines, pathVar, M);
    if fixes == 0 {
      return 0, None;
    }
    written := Some(Join(newLines));
  }

  /** The two-argument branch is dead: the matcher it uses never matters. */
  lemma TwoArgNeverFires(line: string, v: string, M: Matchers)
    ensures LineFix(line, v, M) == LineFix(line, v, M.(twoArg := _ => None))
  {
    var t := M.twoArg(line);
    if t.Some? {
      PresentAndAbsent(t.value.arg2, ',');
      assert !TwoArgGuard(t.value);
    }
  }

  /** A rewritten line is never the line it replaces. */
  lemma RewriteChangesLine(line: string, v: string, M: Matchers)
    ensures LineFix(line, v, M).Some? <==> NewLine(line, v, M) != line
  {
  }

  /** A second pass over the written lines, with the same variable, rewrites nothing. */
  lemma NewLineIdempotent(line: string, v: string, M: Matchers)
    ensures LineFix(NewLine(line, v, M), v, M).None?
    ensures NewLine(NewLine(line, v, M), v, M) == NewLine(line, v, M)
  {
  }

  /** `fixes` counts exactly the lines that differ between the input and the output. */
  lemma {:induction false} FixCountIsDiffCount(lines: seq<string>, v: string, M: Matchers, k: nat)
    requires k <= |lines|
    ensures FixedUpTo(lines, v, M, k) == DiffUpTo(lines, NewLines(lines, v, M), k)
  {
    if k > 0 {
      FixCountIsDiffCount(lines, v, M, k - 1);
      RewriteChangesLine(lines[k - 1], v, M);
      assert NewLines(lines, v, M)[k - 1] == NewLine(lines[k - 1], v, M);
    }
  }

  /** Nothing is written exactly when every line comes back unchanged. */
  lemma NothingWrittenIffUnchanged(lines: seq<string>, v: string, M: Matchers)
    ensures FixCount(lines, v, M) == DiffCount(lines, NewLines(lines, v, M))
    ensures FixCount(lines, v, M) == 0 <==> NewLines(lines, v, M) == lines
  {
    var nl := NewLines(lines, v, M);
    FixCountIsDiffCount(lines, v, M, |lines|);
    DiffUpToZero(lines, nl, |lines|);
    assert lines[..|lines|] == lines && nl[..|lines|] == nl;
  }

  /**
   * When no rewrite introduces a line break, the written file has exactly
   * as many lines as the input, and reading it again with the same
   * variable finds nothing left to fix.
   */
  lemma WrittenFileKeepsLines(content: string, v: string, M: Matchers)
    requires forall i :: 0 <= i < |Split(content)| ==> '\n' !in NewLine(Split(content)[i], v, M)
    ensures Split(Join(NewLines(Split(content), v, M))) == NewLines(Split(content), v, M)
    ensures |Split(Join(NewLines(Split(content), v, M)))| == |Split(content)|
    ensures FixCount(Split(Join(NewLines(Split(content), v, M))), v, M) == 0
  {
    var lines := Split(content);
    var nl := NewLines(lines, v, M);
    SplitJoin(nl);
    forall i | 0 <= i < |nl|
      ensures NewLine(nl[i], v, M) == nl[i]
    {
      NewLineIdempotent(lines[i], v, M);
    }
    assert NewLines(nl, v, M) == nl;
    NothingWrittenIffUnchanged(nl, v, M);
  }
}
