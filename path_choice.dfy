/**
 * The rule phase 2 and phase 4 share for picking the variable that holds
 * a test's input PDF: take each pattern's first match in turn, skip a name
 * that looks like an output path, and fall back to a default.
 */
module PathChoice {
  import opened Wrappers
  import opened Text

  /** `'redacted' in name.lower() or 'output' in name.lower()`. */
  predicate NamesOutput(name: string) {
    Contains(Lower(name), "redacted") || Contains(Lower(name), "output")
  }

  /** The first usable match, in pattern order, or the default. */
  function FirstUsable(firstMatches: seq<Option<string>>, default: string): (v: string)
    ensures v == default || exists i :: 0 <= i < |firstMatches| && firstMatches[i] == Some(v)
    ensures v != default ==> !NamesOutput(v)
  {
    if firstMatches == [] then default
    else match firstMatches[0]
      case Some(name) =>
        if NamesOutput(name) then FirstUsable(firstMatches[1..], default) else name
      case None => FirstUsable(firstMatches[1..], default)
  }

  /** The loop over the patterns, with `continue` past an output name. */
  method FindFirstUsable(firstMatches: seq<Option<string>>, default: string) returns (v: string)
    ensures v == FirstUsable(firstMatches, default)
  {
    var i := 0;
    while i < |firstMatches|
      invariant 0 <= i <= |firstMatches|
      invariant FirstUsable(firstMatches[i..], default) == FirstUsable(firstMatches, default)
    {
      assert firstMatches[i..][1..] == firstMatches[i + 1..];
      if firstMatches[i].Some? {
        var name := firstMatches[i].value;
        if NamesOutput(name) {
          i := i + 1;
          continue;
        }
        return name;
      }
      i := i + 1;
    }
    return default;
  }

  /** Patterns with no match, or whose match names an output, are passed over. */
  lemma {:induction false} SkippedPatternsIgnored(skipped: seq<Option<string>>, rest: seq<Option<string>>, default: string)
    requires forall i :: 0 <= i < |skipped| ==> skipped[i].None? || NamesOutput(skipped[i].value)
    ensures FirstUsable(skipped + rest, default) == FirstUsable(rest, default)
    decreases |skipped|
  {
    if skipped != [] {
      assert (skipped + rest)[1..] == skipped[1..] + rest;
      SkippedPatternsIgnored(skipped[1..], rest, default);
    } else {
      assert skipped + rest == rest;
    }
  }

  /** The first usable match, after `j` patterns that give nothing usable, is the choice. */
  lemma PickAt(ms: seq<Option<string>>, j: nat, name: string, default: string)
    requires j < |ms| && ms[j] == Some(name) && !NamesOutput(name)
    requires forall i :: 0 <= i < j ==> ms[i].None? || NamesOutput(ms[i].value)
    ensures FirstUsable(ms, default) == name
  {
    SkippedPatternsIgnored(ms[..j], ms[j..], default);
    assert ms[..j] + ms[j..] == ms;
  }

  /** A usable first match wins over everything after it. */
  lemma FirstUsableWins(name: string, rest: seq<Option<string>>, default: string)
    requires !NamesOutput(name)
    ensures FirstUsable([Some(name)] + rest, default) == name
  {
  }

  /** A name with no `r` and no `o` in either case is never taken for an output. */
  lemma NoOutputLetters(name: string)
    requires 'r' !in name && 'R' !in name && 'o' !in name && 'O' !in name
    ensures !NamesOutput(name)
  {
    LowerAvoids(name, 'r');
    LowerAvoids(name, 'o');
    ContainsNeedsChar(Lower(name), "redacted", 'r');
    ContainsNeedsChar(Lower(name), "output", 'o');
  }

  /** `redactedPath` is always taken for an output. */
  lemma RedactedPathNamesOutput()
    ensures NamesOutput("redactedPath")
  {
    var l := Lower("redactedPath");
    assert l[..8] == "redacted";
    assert StartsWith(l, "redacted");
  }
}
