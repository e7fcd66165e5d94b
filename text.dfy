/**
 * The handful of Python string operations the scripts rely on, as total
 * functions over `string` (a sequence of code points, like Python's `str`):
 * `sub in s`, `s.count(c)`, `s.lower()`, `s.strip()`, `s.split('\n')`,
 * `'\n'.join(ls)` and `''.join(ls)`.
 */
module Text {

  /** Python's `s.startswith(p)`. */
  predicate StartsWith(s: string, p: string) {
    |p| <= |s| && s[..|p|] == p
  }

  /** Python's `s.endswith(p)`. */
  predicate EndsWith(s: string, p: string) {
    |p| <= |s| && s[|s| - |p|..] == p
  }

  /** A string starts with each of its own prefixes. */
  lemma StartsWithSelf(a: string, b: string)
    ensures StartsWith(a + b, a)
  {
    assert (a + b)[..|a|] == a;
  }

  /** Appending keeps a prefix. */
  lemma StartsWithAppend(a: string, b: string, p: string)
    requires StartsWith(a, p)
    ensures StartsWith(a + b, p)
  {
    assert (a + b)[..|p|] == a[..|p|];
  }

  /** Putting text in front keeps a suffix. */
  lemma EndsWithAppend(a: string, b: string, p: string)
    requires EndsWith(b, p)
    ensures EndsWith(a + b, p)
  {
    assert (a + b)[|a + b| - |p|..] == b[|b| - |p|..];
  }

  /** A string ends with whatever was put last. */
  lemma EndsWithSelf(a: string, b: string)
    ensures EndsWith(a + b, b)
  {
    assert (a + b)[|a + b| - |b|..] == b;
  }

  /** Putting the same text after both keeps a suffix. */
  lemma EndsWithGrow(s: string, p: string, c: string)
    requires EndsWith(s, p)
    ensures EndsWith(s + c, p + c)
  {
    assert (s + c)[|s + c| - |p + c|..] == s[|s| - |p|..] + c;
  }

  /** Python's `sub in s`: `sub` occurs somewhere in `s`. */
  predicate Contains(s: string, sub: string)
    decreases |s|
  {
    StartsWith(s, sub) || (|s| > 0 && Contains(s[1..], sub))
  }

  /** A suffix is an occurrence. */
  lemma EndsWithContains(s: string, p: string)
    requires EndsWith(s, p)
    ensures Contains(s, p)
  {
    ContainsAt(s, p, |s| - |p|);
  }

  /** An occurrence at a known offset is an occurrence. */
  lemma {:induction false} ContainsAt(s: string, sub: string, k: nat)
    requires k + |sub| <= |s| && s[k..k + |sub|] == sub
    ensures Contains(s, sub)
    decreases k
  {
    if k == 0 {
      assert StartsWith(s, sub);
    } else {
      assert s[1..][k - 1..k - 1 + |sub|] == sub;
      ContainsAt(s[1..], sub, k - 1);
    }
  }

  /** Whatever is glued around `b`, the result still contains `b`. */
  lemma ContainsMiddle(a: string, b: string, c: string)
    ensures Contains(a + b + c, b)
  {
    assert (a + b + c)[|a|..|a| + |b|] == b;
    ContainsAt(a + b + c, b, |a|);
  }

  /** A one-character needle is found exactly when the character occurs. */
  lemma {:induction false} ContainsChar(s: string, c: char)
    ensures Contains(s, [c]) <==> c in s
    decreases |s|
  {
    if |s| > 0 {
      ContainsChar(s[1..], c);
      assert s == [s[0]] + s[1..];
    }
  }

  /** A needle holding a character the text lacks is not found in it. */
  lemma {:induction false} ContainsNeedsChar(s: string, sub: string, c: char)
    requires c in sub && c !in s
    ensures !Contains(s, sub)
    decreases |s|
  {
    if |s| > 0 {
      assert c !in s[1..] by { assert forall d :: d in s[1..] ==> d in s; }
      ContainsNeedsChar(s[1..], sub, c);
    }
  }

  /** Python's `s.count(c)` for a one-character argument. */
  function CountChar(s: string, c: char): (n: nat)
    ensures n <= |s|
    ensures n == 0 <==> c !in s
  {
    if s == [] then 0
    else (if s[0] == c then 1 else 0) + CountChar(s[1..], c)
  }

  /** The guard `c in s and s.count(c) == 0` can never hold. */
  lemma PresentAndAbsent(s: string, c: char)
    ensures !(Contains(s, [c]) && CountChar(s, c) == 0)
  {
    ContainsChar(s, c);
  }

  /** `c.lower()` on the ASCII range; other characters are kept. */
  function LowerChar(c: char): (d: char)
    ensures 'A' <= c <= 'Z' ==> 'a' <= d <= 'z'
    ensures !('A' <= c <= 'Z') ==> d == c
  {
    if 'A' <= c <= 'Z' then (c as int + 32) as char else c
  }

  /** `s.lower()`, character by character. */
  function Lower(s: string): (r: string)
    ensures |r| == |s|
    ensures forall i :: 0 <= i < |s| ==> r[i] == LowerChar(s[i])
  {
    seq(|s|, i requires 0 <= i < |s| => LowerChar(s[i]))
  }

  /** A lower-case letter appears in `s.lower()` only where it or its capital appears in `s`. */
  lemma LowerAvoids(s: string, c: char)
    requires 'a' <= c <= 'z' && c !in s && (c as int - 32) as char !in s
    ensures c !in Lower(s)
  {
    forall i | 0 <= i < |s|
      ensures Lower(s)[i] != c
    {
      assert s[i] != c && s[i] != (c as int - 32) as char;
    }
  }

  /**
   * Python's `str.isspace()` on one character, which `strip()` removes:
   * space, tab to carriage return, the four separators U+001C to U+001F,
   * U+0085, no-break space, U+1680, U+2000 to U+200A, the line and
   * paragraph separators, U+202F, U+205F and U+3000.
   */
  predicate IsSpace(c: char) {
    || c == ' '
    || ('\t' <= c <= '\r')
    || ('\U{001C}' <= c <= '\U{001F}')
    || c == '\U{0085}' || c == '\U{00A0}' || c == '\U{1680}'
    || ('\U{2000}' <= c <= '\U{200A}')
    || c == '\U{2028}' || c == '\U{2029}' || c == '\U{202F}' || c == '\U{205F}' || c == '\U{3000}'
  }

  /** Where `s.lstrip()` would start when looking from index `i`: the first non-white-space index, or `|s|`. */
  function SkipSpace(s: string, i: nat): (j: nat)
    requires i <= |s|
    ensures i <= j <= |s|
    ensures forall k :: i <= k < j ==> IsSpace(s[k])
    ensures j == |s| || !IsSpace(s[j])
    decreases |s| - i
  {
    if i < |s| && IsSpace(s[i]) then SkipSpace(s, i + 1) else i
  }

  /** Where `s.rstrip()` would end when looking back from `j` to `lo`: just past the last non-white-space index. */
  function BackSpace(s: string, lo: nat, j: nat): (k: nat)
    requires lo <= j <= |s|
    ensures lo <= k <= j
    ensures forall m :: k <= m < j ==> IsSpace(s[m])
    ensures k == lo || !IsSpace(s[k - 1])
    decreases j
  {
    if j > lo && IsSpace(s[j - 1]) then BackSpace(s, lo, j - 1) else j
  }

  /** How many leading white-space characters `s.strip()` drops. */
  function LeadingSpace(s: string): nat {
    SkipSpace(s, 0)
  }

  /** `s.strip()`: a contiguous piece of `s`, with only white space cut away on either side. */
  function Strip(s: string): (r: string)
    ensures LeadingSpace(s) + |r| <= |s|
    ensures r == s[LeadingSpace(s)..LeadingSpace(s) + |r|]
    ensures forall k :: 0 <= k < LeadingSpace(s) ==> IsSpace(s[k])
    ensures forall k :: LeadingSpace(s) + |r| <= k < |s| ==> IsSpace(s[k])
    ensures r == [] || (!IsSpace(r[0]) && !IsSpace(r[|r| - 1]))
  {
    var a := SkipSpace(s, 0);
    s[a..BackSpace(s, a, |s|)]
  }

  /** Stripping twice is stripping once. */
  lemma StripIdempotent(s: string)
    ensures Strip(Strip(s)) == Strip(s)
  {
    var r := Strip(s);
    assert SkipSpace(r, 0) == 0;
    assert BackSpace(r, 0, |r|) == |r|;
    assert r[0..|r|] == r;
  }

  /** `'\n'.join(ls)`. */
  function Join(ls: seq<string>): string {
    if |ls| == 0 then ""
    else if |ls| == 1 then ls[0]
    else ls[0] + "\n" + Join(ls[1..])
  }

  /** `s.split('\n')`: never empty, no piece holds a newline. */
  function Split(s: string): (r: seq<string>)
    ensures |r| >= 1
    ensures forall i :: 0 <= i < |r| ==> '\n' !in r[i]
  {
    if s == [] then [""]
    else
      var rest := Split(s[1..]);
      if s[0] == '\n' then [""] + rest
      else [[s[0]] + rest[0]] + rest[1..]
  }

  /** Joining the pieces of a split gives back the text. */
  lemma {:induction false} JoinSplit(s: string)
    ensures Join(Split(s)) == s
  {
    if s != [] {
      var rest := Split(s[1..]);
      JoinSplit(s[1..]);
      if s[0] == '\n' {
        assert Split(s) == [""] + rest;
        assert ([""] + rest)[1..] == rest;
      } else {
        var r := [[s[0]] + rest[0]] + rest[1..];
        assert Split(s) == r;
        if |rest| == 1 {
          assert Join(r) == [s[0]] + rest[0];
        } else {
          assert r[1..] == rest[1..];
          assert Join(r) == [s[0]] + rest[0] + "\n" + Join(rest[1..]);
        }
        assert s == [s[0]] + s[1..];
      }
    }
  }

  /** Splitting the join of newline-free lines gives back the lines. */
  lemma {:induction false} SplitJoin(ls: seq<string>)
    requires |ls| >= 1
    requires forall i :: 0 <= i < |ls| ==> '\n' !in ls[i]
    ensures Split(Join(ls)) == ls
    decreases |Join(ls)|, |ls|
  {
    if |ls| == 1 {
      SplitNoNewline(ls[0]);
    } else if ls[0] == [] {
      assert Join(ls) == "\n" + Join(ls[1..]);
      assert Join(ls)[1..] == Join(ls[1..]);
      SplitJoin(ls[1..]);
    } else {
      var t := [ls[0][1..]] + ls[1..];
      assert t[1..] == ls[1..];
      assert Join(ls) == [ls[0][0]] + Join(t);
      assert Join(ls)[1..] == Join(t);
      assert '\n' !in t[0] by { assert forall c :: c in t[0] ==> c in ls[0]; }
      SplitJoin(t);
      assert ls[0] == [ls[0][0]] + t[0];
      assert ls == [[ls[0][0]] + t[0]] + t[1..];
    }
  }

  /** A newline-free text splits into itself alone. */
  lemma {:induction false} SplitNoNewline(s: string)
    requires '\n' !in s
    ensures Split(s) == [s]
  {
    if s != [] {
      assert '\n' !in s[1..] by { assert forall c :: c in s[1..] ==> c in s; }
      SplitNoNewline(s[1..]);
      assert s == [s[0]] + s[1..];
    }
  }

  /** Two newline-free line lists with the same join are the same list. */
  lemma JoinInjective(a: seq<string>, b: seq<string>)
    requires |a| >= 1 && |b| >= 1
    requires forall i :: 0 <= i < |a| ==> '\n' !in a[i]
    requires forall i :: 0 <= i < |b| ==> '\n' !in b[i]
    requires Join(a) == Join(b)
    ensures a == b
  {
    SplitJoin(a);
    SplitJoin(b);
  }

  /** Joining two non-empty line lists puts one newline between their joins. */
  lemma {:induction false} JoinAppend(a: seq<string>, b: seq<string>)
    requires |a| >= 1 && |b| >= 1
    ensures Join(a + b) == Join(a) + "\n" + Join(b)
    decreases |a|
  {
    if |a| > 1 {
      assert (a + b)[1..] == a[1..] + b;
      JoinAppend(a[1..], b);
    } else {
      assert (a + b)[1..] == b;
    }
  }

  /** `s.lower()` never creates a newline. */
  lemma LowerKeepsNewlineFree(s: string)
    requires '\n' !in s
    ensures '\n' !in Lower(s)
  {
    forall i | 0 <= i < |s|
      ensures Lower(s)[i] != '\n'
    {
      assert s[i] != '\n';
    }
  }

  /** `''.join(ls)`. */
  function Concat(ls: seq<string>): string {
    if ls == [] then "" else ls[0] + Concat(ls[1..])
  }
  /** Index just past the first newline at or after `i`, or `|t|` when there is none. */
  function LineEnd(t: string, i: nat): (e: nat)
    requires i < |t|
    ensures i < e <= |t|
    ensures forall k :: i <= k < e - 1 ==> t[k] != '\n'
    ensures e < |t| ==> t[e - 1] == '\n'
    decreases |t| - i
  {
    if t[i] == '\n' || i + 1 == |t| then i + 1 else LineEnd(t, i + 1)
  }

  /**
   * `f.readlines()` on a text: non-empty pieces that put back together give
   * the text, each ending at its first newline; only the last may lack one.
   */
  function ReadLines(t: string): (r: seq<string>)
    ensures Concat(r) == t
    ensures forall i :: 0 <= i < |r| ==> r[i] != []
    ensures forall i :: 0 <= i < |r| - 1 ==> r[i][|r[i]| - 1] == '\n'
    ensures forall i :: 0 <= i < |r| ==> '\n' !in r[i][..|r[i]| - 1]
    decreases |t|
  {
    if t == [] then []
    else
      var e := LineEnd(t, 0);
      var rest := ReadLines(t[e..]);
      FirstLine(t, e);
      ReadLinesCons(t[..e], rest);
      [t[..e]] + rest
  }

  /** The piece up to the first line end holds no newline before its last character. */
  lemma FirstLine(t: string, e: nat)
    requires 0 < e <= |t|
    requires forall k :: 0 <= k < e - 1 ==> t[k] != '\n'
    ensures t[..e] + t[e..] == t
    ensures '\n' !in t[..e][..e - 1]
  {
    assert t[..e][..e - 1] == t[..e - 1];
  }

  /** Putting one more line in front of a list of lines. */
  lemma ReadLinesCons(a: string, rest: seq<string>)
    requires a != [] && '\n' !in a[..|a| - 1]
    requires rest != [] ==> a[|a| - 1] == '\n'
    requires forall i :: 0 <= i < |rest| ==> rest[i] != []
    requires forall i :: 0 <= i < |rest| - 1 ==> rest[i][|rest[i]| - 1] == '\n'
    requires forall i :: 0 <= i < |rest| ==> '\n' !in rest[i][..|rest[i]| - 1]
    ensures Concat([a] + rest) == a + Concat(rest)
    ensures var r := [a] + rest;
            && (forall i :: 0 <= i < |r| ==> r[i] != [])
            && (forall i :: 0 <= i < |r| - 1 ==> r[i][|r[i]| - 1] == '\n')
            && (forall i :: 0 <= i < |r| ==> '\n' !in r[i][..|r[i]| - 1])
  {
    var r := [a] + rest;
    assert r[1..] == rest;
    assert forall i :: 1 <= i < |r| ==> r[i] == rest[i - 1];
  }


  /** `''.join` distributes over list concatenation. */
  lemma {:induction false} ConcatAppend(a: seq<string>, b: seq<string>)
    ensures Concat(a + b) == Concat(a) + Concat(b)
  {
    if a != [] {
      assert (a + b)[1..] == a[1..] + b;
      ConcatAppend(a[1..], b);
    } else {
      assert a + b == b;
    }
  }

  /** Each line followed by a newline. */
  function Terminated(ls: seq<string>): (r: seq<string>)
    ensures |r| == |ls|
  {
    seq(|ls|, i requires 0 <= i < |ls| => ls[i] + "\n")
  }

  /** Writing lines one per row, each ending in a newline, is `'\n'.join` plus a final newline. */
  lemma {:induction false} ConcatTerminated(ls: seq<string>)
    ensures Concat(Terminated(ls)) == if ls == [] then "" else Join(ls) + "\n"
  {
    if ls != [] {
      ConcatTerminated(ls[1..]);
      assert Terminated(ls)[1..] == Terminated(ls[1..]);
    }
  }

  /** How many of the first `k` positions hold different lines in `a` and `b`. */
  function DiffUpTo(a: seq<string>, b: seq<string>, k: nat): (n: nat)
    requires k <= |a| && k <= |b|
    ensures n <= k
  {
    if k == 0 then 0 else DiffUpTo(a, b, k - 1) + (if a[k - 1] != b[k - 1] then 1 else 0)
  }

  /** `sum(1 for x, y in zip(a, b) if x != y)`: `zip` stops at the shorter list. */
  function DiffCount(a: seq<string>, b: seq<string>): (n: nat)
    ensures n <= |a| && n <= |b|
  {
    DiffUpTo(a, b, if |a| <= |b| then |a| else |b|)
  }

  /** No difference is counted exactly when the first `k` lines agree pairwise. */
  lemma {:induction false} DiffUpToZero(a: seq<string>, b: seq<string>, k: nat)
    requires k <= |a| && k <= |b|
    ensures DiffUpTo(a, b, k) == 0 <==> a[..k] == b[..k]
  {
    if k > 0 {
      DiffUpToZero(a, b, k - 1);
      assert a[..k] == a[..k - 1] + [a[k - 1]];
      assert b[..k] == b[..k - 1] + [b[k - 1]];
      if a[..k] == b[..k] {
        assert a[..k - 1] == a[..k][..k - 1] && b[..k - 1] == b[..k][..k - 1];
        assert a[k - 1] == a[..k][k - 1] && b[k - 1] == b[..k][k - 1];
      }
    }
  }
}
