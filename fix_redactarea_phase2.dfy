/**
 * fix_redactarea_phase2.py: every two-argument `.RedactArea(page, area)`
 * call in a test file gains the path variable as third argument. The regex
 * matches come in as spans; the splice works from the last match to the
 * first so that earlier spans keep their offsets.
 */
module FixRedactAreaPhase2 {
  import opened Wrappers
  import opened Text
  import opened PathChoice

  /**
   * The first match of each `find_path_variable` pattern. The first five
   * patterns capture a fixed name, so only whether they match matters; the
   * sixth captures the identifier passed to `PdfReader.Open`.
   */
  datatype PathHits = PathHits(pdfPath: bool, inputPath: bool, filePath: bool, testPath: bool,
                               redactedPath: bool, readerOpen: Option<string>)

  function Hit(matched: bool, name: string): Option<string> {
    if matched then Some(name) else None
  }

  /** The patterns' first matches, in the order they are tried. */
  function FirstMatches(h: PathHits): seq<Option<string>> {
    [Hit(h.pdfPath, "pdfPath"), Hit(h.inputPath, "inputPath"), Hit(h.filePath, "filePath"),
     Hit(h.testPath, "testPath"), Hit(h.redactedPath, "redactedPath"), h.readerOpen]
  }

  /** `find_path_variable`. */
  method FindPathVariable(h: PathHits) returns (v: string)
    ensures v == FirstUsable(FirstMatches(h), "pdfPath")
  {
    v := FindFirstUsable(FirstMatches(h), "pdfPath");
  }

  /**
   * The choice, written out: the first declared of `pdfPath`, `inputPath`,
   * `filePath` and `testPath`, else the variable opened by `PdfReader.Open`
   * unless it names an output, else `pdfPath`. The `redactedPath` pattern
   * never decides anything.
   */
  lemma PathVariableChoice(h: PathHits)
    ensures FirstUsable(FirstMatches(h), "pdfPath") == Preferred(h)
  {
    if h.pdfPath || h.inputPath || h.filePath || h.testPath {
      DeclaredChoice(h);
    } else {
      UndeclaredChoice(h);
    }
  }

  /** `PathVariableChoice` when one of the four declaration patterns matched. */
  lemma DeclaredChoice(h: PathHits)
    requires h.pdfPath || h.inputPath || h.filePath || h.testPath
    ensures FirstUsable(FirstMatches(h), "pdfPath") == Preferred(h)
  {
    var ms := FirstMatches(h);
    if h.pdfPath {
      DeclaredWins(ms, 0, "pdfPath");
    } else if h.inputPath {
      DeclaredWins(ms, 1, "inputPath");
    } else if h.filePath {
      DeclaredWins(ms, 2, "filePath");
    } else {
      DeclaredWins(ms, 3, "testPath");
    }
  }

  /** `PathVariableChoice` when no declaration pattern matched: the `PdfReader.Open` argument decides. */
  lemma UndeclaredChoice(h: PathHits)
    requires !(h.pdfPath || h.inputPath || h.filePath || h.testPath)
    ensures FirstUsable(FirstMatches(h), "pdfPath") == Preferred(h)
  {
    var ms := FirstMatches(h);
    RedactedPathNamesOutput();
    ChoiceAfter(ms, 5, "pdfPath");
    assert ms[5..] == [h.readerOpen];
    assert ms[5..][1..] == [];
  }

  /** A declared name with no `r` or `o` in it, after patterns that found nothing, is the choice. */
  lemma DeclaredWins(ms: seq<Option<string>>, j: nat, name: string)
    requires j < |ms| && ms[j] == Some(name)
    requires 'r' !in name && 'R' !in name && 'o' !in name && 'O' !in name
    requires forall i :: 0 <= i < j ==> ms[i].None?
    ensures FirstUsable(ms, "pdfPath") == name
  {
    NoOutputLetters(name);
    PickAt(ms, j, name, "pdfPath");
  }

  /** When the first `j` patterns give nothing usable, the choice is made among the rest. */
  lemma ChoiceAfter(ms: seq<Option<string>>, j: nat, default: string)
    requires j <= |ms|
    requires forall i :: 0 <= i < j ==> ms[i].None? || NamesOutput(ms[i].value)
    ensures FirstUsable(ms, default) == FirstUsable(ms[j..], default)
  {
    SkippedPatternsIgnored(ms[..j], ms[j..], default);
    assert ms[..j] + ms[j..] == ms;
  }

  /** The preference order among the patterns, stated directly. */
  function Preferred(h: PathHits): string {
    if h.pdfPath then "pdfPath"
    else if h.inputPath then "inputPath"
    else if h.filePath then "filePath"
    else if h.testPath then "testPath"
    else if h.readerOpen.Some? && !NamesOutput(h.readerOpen.value) then h.readerOpen.value
    else "pdfPath"
  }

  /** One match of `\.RedactArea\(\s*([^,]+),\s*([^,)]+)\s*\)(?!,)`: its span and its two groups. */
  datatype Span = Span(start: nat, end: nat, arg1: string, arg2: string)

  /** `finditer` order: spans inside the text, each after the previous one, from offset `pos` on. */
  predicate SpansFrom(c: string, spans: seq<Span>, pos: nat)
    decreases |spans|
  {
    if spans == [] then pos <= |c|
    else pos <= spans[0].start <= spans[0].end <= |c| && SpansFrom(c, spans[1..], spans[0].end)
  }

  /** `.RedactArea({arg1}, {arg2}, {path_var})` with both arguments stripped. */
  function Replacement(m: Span, v: string): string {
    ".RedactArea(" + Strip(m.arg1) + ", " + Strip(m.arg2) + ", " + v + ")"
  }

  /** The text from `pos` on with every span replaced at once, read left to right. */
  function Rewrite(c: string, spans: seq<Span>, v: string, pos: nat): string
    requires SpansFrom(c, spans, pos)
    decreases |spans|
  {
    if spans == [] then c[pos..]
    else c[pos..spans[0].start] + Replacement(spans[0], v) + Rewrite(c, spans[1..], v, spans[0].end)
  }

  /** Where the untouched text before span `k` begins. */
  function Gap(spans: seq<Span>, k: nat): nat
    requires k <= |spans|
  {
    if k == 0 then 0 else spans[k - 1].end
  }

  lemma {:induction false} SpansSuffix(c: string, spans: seq<Span>, k: nat)
    requires SpansFrom(c, spans, 0) && k <= |spans|
    ensures SpansFrom(c, spans[k..], Gap(spans, k))
    decreases k
  {
    if k > 0 {
      SpansSuffix(c, spans, k - 1);
      assert spans[k - 1..][1..] == spans[k..];
    }
  }

  lemma {:induction false} SpansInside(c: string, spans: seq<Span>, pos: nat)
    requires SpansFrom(c, spans, pos)
    ensures pos <= |c|
    decreases |spans|
  {
    if spans != [] {
      SpansInside(c, spans[1..], spans[0].end);
    }
  }

  /**
   * The loop over `reversed(matches)`: splicing from the last span back to
   * the first gives the left-to-right rewrite.
   */
  method SpliceAll(content: string, spans: seq<Span>, v: string) returns (r: string)
    requires SpansFrom(content, spans, 0)
    ensures r == Rewrite(content, spans, v, 0)
  {
    r := content;
    var k := |spans|;
    SpansSuffix(content, spans, k);
    SpansInside(content, spans[k..], Gap(spans, k));
    assert r == content[..Gap(spans, k)] + content[Gap(spans, k)..];
    while k > 0
      invariant 0 <= k <= |spans|
      invariant SpansFrom(content, spans[k..], Gap(spans, k))
      invariant r == content[..Gap(spans, k)] + Rewrite(content, spans[k..], v, Gap(spans, k))
    {
      k := k - 1;
      SpliceStep(content, spans, v, k, r);
      r := r[..spans[k].start] + Replacement(spans[k], v) + r[spans[k].end..];
    }
  }

  /** One splice of the loop, at span `k`, when the spans after it are already replaced. */
  lemma SpliceStep(content: string, spans: seq<Span>, v: string, k: nat, r: string)
    requires SpansFrom(content, spans, 0) && k < |spans|
    requires SpansFrom(content, spans[k + 1..], Gap(spans, k + 1))
    requires r == content[..Gap(spans, k + 1)] + Rewrite(content, spans[k + 1..], v, Gap(spans, k + 1))
    ensures spans[k].start <= spans[k].end <= |r|
    ensures SpansFrom(content, spans[k..], Gap(spans, k))
    ensures r[..spans[k].start] + Replacement(spans[k], v) + r[spans[k].end..]
         == content[..Gap(spans, k)] + Rewrite(content, spans[k..], v, Gap(spans, k))
  {
    SpansSuffix(content, spans, k);
    var m := spans[k];
    var g := Gap(spans, k);
    assert spans[k..][1..] == spans[k + 1..];
    var tail := Rewrite(content, spans[k + 1..], v, m.end);
    var rep := Replacement(m, v);
    assert Rewrite(content, spans[k..], v, g) == content[g..m.start] + rep + tail;
    SpliceText(content, g, m.start, m.end, rep, tail, r);
  }

  /** Replacing `r[s..e]` in a text whose first `e` characters are original. */
  lemma SpliceText(c: string, g: nat, s: nat, e: nat, rep: string, tail: string, r: string)
    requires g <= s <= e <= |c| && r == c[..e] + tail
    ensures e <= |r|
    ensures r[..s] + rep + r[e..] == c[..g] + (c[g..s] + rep + tail)
  {
    assert r[..s] == c[..s] == c[..g] + c[g..s];
    assert r[e..] == tail;
  }

  /**
   * `fix_file`: an unreadable file or a file with no match is left alone and
   * counts 0; otherwise the rewritten text is written and the number of
   * matches returned.
   */
  method FixFile(content: Option<string>, h: PathHits, spans: seq<Span>)
    returns (fixes: nat, written: Option<string>)
    requires content.Some? ==> SpansFrom(content.value, spans, 0)
    ensures content.None? || spans == [] ==> fixes == 0 && written == None
    ensures content.Some? && spans != [] ==>
              fixes == |spans|
              && written == Some(Rewrite(content.value, spans, FirstUsable(FirstMatches(h), "pdfPath"), 0))
  {
    if content.None? {
      return 0, None;
    }
    var pathVar := FindPathVariable(h);
    if spans == [] {
      return 0, None;
    }
    var fixed := SpliceAll(content.value, spans, pathVar);
    return |spans|, Some(fixed);
  }

  /** How much longer the text gets: each replacement's length less its span's. */
  function Growth(spans: seq<Span>, v: string): int {
    if spans == [] then 0
    else |Replacement(spans[0], v)| - (spans[0].end - spans[0].start) + Growth(spans[1..], v)
  }

  /** The rewritten text's length. */
  lemma {:induction false} RewriteLength(c: string, spans: seq<Span>, v: string, pos: nat)
    requires SpansFrom(c, spans, pos)
    ensures |Rewrite(c, spans, v, pos)| == |c| - pos + Growth(spans, v)
    decreases |spans|
  {
    if spans != [] {
      RewriteLength(c, spans[1..], v, spans[0].end);
    }
  }

  /** The span's own text already reads as its replacement. */
  predicate ReadsAsReplacement(c: string, m: Span, v: string) {
    m.start <= m.end <= |c| && c[m.start..m.end] == Replacement(m, v)
  }

  /** Where every span already reads as its replacement, the text is unchanged. */
  lemma {:induction false} RewriteOwnText(c: string, spans: seq<Span>, v: string, pos: nat)
    requires SpansFrom(c, spans, pos)
    requires forall i :: 0 <= i < |spans| ==> ReadsAsReplacement(c, spans[i], v)
    ensures Rewrite(c, spans, v, pos) == c[pos..]
    decreases |spans|
  {
    if spans != [] {
      var m := spans[0];
      assert ReadsAsReplacement(c, spans[0], v);
      forall i | 0 <= i < |spans[1..]|
        ensures ReadsAsReplacement(c, spans[1..][i], v)
      {
        assert spans[1..][i] == spans[i + 1];
      }
      RewriteOwnText(c, spans[1..], v, m.end);
      ThreePieces(c, pos, m.start, m.end);
    }
  }

  /** A suffix cut at two points falls into three consecutive pieces. */
  lemma ThreePieces(c: string, a: nat, b: nat, d: nat)
    requires a <= b <= d <= |c|
    ensures c[a..] == c[a..b] + c[b..d] + c[d..]
  {
  }

  /** Where the last span ends. */
  function LastEnd(spans: seq<Span>): nat
    requires spans != []
  {
    spans[|spans| - 1].end
  }

  /** The text before the first span and after the last one is kept as it was. */
  lemma RewriteKeepsEnds(c: string, spans: seq<Span>, v: string, pos: nat)
    requires SpansFrom(c, spans, pos) && spans != []
    ensures StartsWith(Rewrite(c, spans, v, pos), c[pos..spans[0].start])
    ensures LastEnd(spans) <= |c| && EndsWith(Rewrite(c, spans, v, pos), c[LastEnd(spans)..])
  {
    RewriteKeepsStart(c, spans, v, pos);
    RewriteKeepsTail(c, spans, v, pos);
  }

  /** The rewrite begins with the untouched text before the first span. */
  lemma RewriteKeepsStart(c: string, spans: seq<Span>, v: string, pos: nat)
    requires SpansFrom(c, spans, pos) && spans != []
    ensures StartsWith(Rewrite(c, spans, v, pos), c[pos..spans[0].start])
  {
    var lead := c[pos..spans[0].start];
    var pre := lead + Replacement(spans[0], v);
    StartsWithSelf(lead, Replacement(spans[0], v));
    StartsWithAppend(pre, Rewrite(c, spans[1..], v, spans[0].end), lead);
  }

  /** The rewrite ends with the untouched text after the last span. */
  lemma {:induction false} RewriteKeepsTail(c: string, spans: seq<Span>, v: string, pos: nat)
    requires SpansFrom(c, spans, pos) && spans != []
    ensures LastEnd(spans) <= |c| && EndsWith(Rewrite(c, spans, v, pos), c[LastEnd(spans)..])
    decreases |spans|
  {
    var head := c[pos..spans[0].start] + Replacement(spans[0], v);
    var rest := Rewrite(c, spans[1..], v, spans[0].end);
    assert Rewrite(c, spans, v, pos) == head + rest;
    if |spans| == 1 {
      assert rest == c[spans[0].end..];
      EndsWithAppend(head, rest, rest);
    } else {
      RewriteKeepsTail(c, spans[1..], v, spans[0].end);
      assert LastEnd(spans[1..]) == LastEnd(spans);
      EndsWithAppend(head, rest, c[LastEnd(spans)..]);
    }
  }

  /**
   * Each replacement keeps the stripped rectangle as the call's first
   * argument, the stripped page as its second and passes the path variable
   * as its third and last.
   */
  lemma ReplacementNamesPathVariable(m: Span, v: string)
    ensures StartsWith(Replacement(m, v), ".RedactArea(" + Strip(m.arg1) + ", ")
    ensures EndsWith(Replacement(m, v), ", " + Strip(m.arg2) + ", " + v + ")")
    ensures EndsWith(Replacement(m, v), ", " + v + ")")
    ensures Contains(Replacement(m, v), ", " + v + ")")
  {
    CallShape(".RedactArea(", Strip(m.arg1), ", ", Strip(m.arg2), v, ")");
  }

  /** A call `open + a + sep + b + sep + v + close` begins with its first argument and ends with the other two. */
  lemma CallShape(open: string, a: string, sep: string, b: string, v: string, close: string)
    ensures StartsWith(open + a + sep + b + sep + v + close, open + a + sep)
    ensures EndsWith(open + a + sep + b + sep + v + close, sep + b + sep + v + close)
    ensures EndsWith(open + a + sep + b + sep + v + close, sep + v + close)
    ensures Contains(open + a + sep + b + sep + v + close, sep + v + close)
  {
    StartsWithSelf(open + a + sep, b);
    StartsWithAppend(open + a + sep + b, sep, open + a + sep);
    StartsWithAppend(open + a + sep + b + sep, v, open + a + sep);
    StartsWithAppend(open + a + sep + b + sep + v, close, open + a + sep);
    EndsWithSelf(open + a, sep);
    EndsWithGrow(open + a + sep, sep, b);
    EndsWithGrow(open + a + sep + b, sep + b, sep);
    EndsWithGrow(open + a + sep + b + sep, sep + b + sep, v);
    EndsWithGrow(open + a + sep + b + sep + v, sep + b + sep + v, close);
    EndsWithSelf(open + a + sep + b, sep);
    EndsWithGrow(open + a + sep + b + sep, sep, v);
    EndsWithGrow(open + a + sep + b + sep + v, sep + v, close);
    EndsWithContains(open + a + sep + b + sep + v + close, sep + v + close);
  }
}
