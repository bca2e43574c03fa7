/** The regular-expression clean-ups that gmail_tool.py applies to decoded text:
    `[ \t]+` to one space, `\n\n+` to a blank line, `str.strip()`, and for HTML the
    per-line `strip()` over `str.splitlines()`. Each step is shown to change whitespace
    only: the non-whitespace characters of the text survive, in order. */
module TextNormalize {
  import opened Common

  predicate IsBlank(c: char)
  {
    c == ' ' || c == '\t'
  }

  /** The non-whitespace characters of `s`, in order. */
  function Visible(s: string): string
  {
    if s == [] then [] else (if IsPySpace(s[0]) then [] else [s[0]]) + Visible(s[1..])
  }

  predicate NoTab(s: string)
  {
    '\t' !in s
  }

  /** Two spaces start at position `i`. */
  predicate DoubleSpaceAt(s: string, i: int)
  {
    0 <= i && i + 1 < |s| && s[i] == ' ' && s[i + 1] == ' '
  }

  predicate NoDoubleSpace(s: string)
  {
    forall i :: 0 <= i < |s| ==> !DoubleSpaceAt(s, i)
  }

  /** Three newlines start at position `i`. */
  predicate TripleNewlineAt(s: string, i: int)
  {
    0 <= i && i + 2 < |s| && s[i] == '\n' && s[i + 1] == '\n' && s[i + 2] == '\n'
  }

  predicate NoTripleNewline(s: string)
  {
    forall i :: 0 <= i < |s| ==> !TripleNewlineAt(s, i)
  }

  /** What both normalisers promise of their output. */
  predicate Clean(s: string)
  {
    NoTab(s) && NoDoubleSpace(s) && NoTripleNewline(s) && Trimmed(s)
  }

  lemma {:induction false} VisibleConcat(a: string, b: string)
    ensures Visible(a + b) == Visible(a) + Visible(b)
  {
    if a == [] {
      assert a + b == b;
    } else {
      var head := if IsPySpace(a[0]) then [] else [a[0]];
      assert (a + b)[0] == a[0] && (a + b)[1..] == a[1..] + b;
      VisibleConcat(a[1..], b);
      calc {
        Visible(a + b);
        head + Visible(a[1..] + b);
        head + (Visible(a[1..]) + Visible(b));
        (head + Visible(a[1..])) + Visible(b);
      }
    }
  }

  lemma {:induction false} VisibleOfSpace(s: string)
    requires AllSpace(s)
    ensures Visible(s) == []
  {
    if s != [] {
      VisibleOfSpace(s[1..]);
    }
  }

  lemma NoDoubleSpaceSlice(s: string, i: int, j: int)
    requires NoDoubleSpace(s) && 0 <= i <= j <= |s|
    ensures NoDoubleSpace(s[i..j])
  {
    var t := s[i..j];
    forall k ensures !DoubleSpaceAt(t, k) {
      if 0 <= k && k + 1 < |t| {
        assert t[k] == s[i + k] && t[k + 1] == s[i + k + 1];
        assert !DoubleSpaceAt(s, i + k);
      }
    }
  }

  lemma NoTripleSlice(s: string, i: int, j: int)
    requires NoTripleNewline(s) && 0 <= i <= j <= |s|
    ensures NoTripleNewline(s[i..j])
  {
    var t := s[i..j];
    forall k ensures !TripleNewlineAt(t, k) {
      if 0 <= k && k + 2 < |t| {
        assert t[k] == s[i + k] && t[k + 1] == s[i + k + 1] && t[k + 2] == s[i + k + 2];
        assert !TripleNewlineAt(s, i + k);
      }
    }
  }

  /** Two texts without a double space join into one, unless a space meets a space. */
  lemma NoDoubleSpaceConcat(a: string, b: string)
    requires NoDoubleSpace(a) && NoDoubleSpace(b)
    requires a == [] || b == [] || a[|a| - 1] != ' ' || b[0] != ' '
    ensures NoDoubleSpace(a + b)
  {
    var c := a + b;
    forall k ensures !DoubleSpaceAt(c, k) {
      if 0 <= k && k + 1 < |a| {
        assert c[k] == a[k] && c[k + 1] == a[k + 1];
        assert !DoubleSpaceAt(a, k);
      } else if |a| <= k && k + 1 < |c| {
        assert c[k] == b[k - |a|] && c[k + 1] == b[k - |a| + 1];
        assert !DoubleSpaceAt(b, k - |a|);
      }
    }
  }

  lemma NoDoubleSpaceCons(c: char, rest: string)
    requires NoDoubleSpace(rest)
    requires rest == [] || c != ' ' || rest[0] != ' '
    ensures NoDoubleSpace([c] + rest)
  {
    NoDoubleSpaceConcat([c], rest);
  }

  // ---- `str.strip()` keeps what the earlier steps established, and only drops whitespace

  lemma StripNoTab(s: string)
    requires NoTab(s)
    ensures NoTab(Strip(s))
  {
    var i, j :| 0 <= i <= j <= |s| && Strip(s) == s[i..j] && AllSpace(s[..i]) && AllSpace(s[j..]);
  }

  lemma StripNoDoubleSpace(s: string)
    requires NoDoubleSpace(s)
    ensures NoDoubleSpace(Strip(s))
  {
    var i, j :| 0 <= i <= j <= |s| && Strip(s) == s[i..j] && AllSpace(s[..i]) && AllSpace(s[j..]);
    NoDoubleSpaceSlice(s, i, j);
  }

  lemma StripNoTriple(s: string)
    requires NoTripleNewline(s)
    ensures NoTripleNewline(Strip(s))
  {
    var i, j :| 0 <= i <= j <= |s| && Strip(s) == s[i..j] && AllSpace(s[..i]) && AllSpace(s[j..]);
    NoTripleSlice(s, i, j);
  }

  lemma StripVisible(s: string)
    ensures Visible(Strip(s)) == Visible(s)
  {
    var i, j :| 0 <= i <= j <= |s| && Strip(s) == s[i..j] && AllSpace(s[..i]) && AllSpace(s[j..]);
    assert s == s[..i] + s[i..j] + s[j..];
    VisibleOfPadded(s[..i], s[i..j], s[j..]);
  }

  /** Whitespace around a text adds nothing visible. */
  lemma VisibleOfPadded(pre: string, mid: string, post: string)
    requires AllSpace(pre) && AllSpace(post)
    ensures Visible(pre + mid + post) == Visible(mid)
  {
    VisibleConcat(pre + mid, post);
    VisibleConcat(pre, mid);
    VisibleOfSpace(pre);
    VisibleOfSpace(post);
  }

  // ---- `re.sub(r'[ \t]+', ' ', s)`

  function DropBlanks(s: string): (r: string)
    ensures |r| <= |s| && r == s[|s| - |r|..]
    ensures r == [] || !IsBlank(r[0])
    ensures Visible(r) == Visible(s)
  {
    if s != [] && IsBlank(s[0]) then DropBlanks(s[1..]) else s
  }

  /** Every maximal run of spaces and tabs becomes one space. */
  function CollapseBlanks(s: string): (r: string)
    ensures NoTab(r) && NoDoubleSpace(r)
    ensures (r != [] && r[0] == ' ') <==> (s != [] && IsBlank(s[0]))
    ensures Visible(r) == Visible(s)
    decreases |s|
  {
    if s == [] then []
    else if IsBlank(s[0]) then
      var rest := CollapseBlanks(DropBlanks(s));
      NoDoubleSpaceCons(' ', rest);
      assert ([' '] + rest)[1..] == rest;
      [' '] + rest
    else
      var rest := CollapseBlanks(s[1..]);
      NoDoubleSpaceCons(s[0], rest);
      assert ([s[0]] + rest)[1..] == rest;
      [s[0]] + rest
  }

  /** The substitution of a class of characters by one space, read one character at a
      time: a character of the class that opens a run (`prev` is false) becomes a space,
      the rest of the run disappears, and every other character is copied. `prev` says
      whether the character before `s` belongs to the class. */
  function Squeeze(s: string, inRun: char -> bool, prev: bool): string
  {
    if s == [] then []
    else (if !inRun(s[0]) then [s[0]] else if prev then [] else " ") + Squeeze(s[1..], inRun, inRun(s[0]))
  }

  /** Where no run goes on, it does not matter whether one came before. */
  lemma SqueezeFresh(s: string, inRun: char -> bool)
    requires s == [] || !inRun(s[0])
    ensures Squeeze(s, inRun, true) == Squeeze(s, inRun, false)
  {
  }

  /** Inside a run of blanks, the rest of the run adds nothing. */
  lemma {:induction false} SqueezeBlankRun(s: string)
    ensures Squeeze(s, IsBlank, true) == Squeeze(DropBlanks(s), IsBlank, true)
    decreases |s|
  {
    if s != [] && IsBlank(s[0]) {
      SqueezeBlankRun(s[1..]);
    }
  }

  /** Each maximal run of spaces and tabs becomes exactly one space, and nothing else
      changes. */
  lemma {:induction false} CollapseBlanksSqueezes(s: string)
    ensures CollapseBlanks(s) == Squeeze(s, IsBlank, false)
    decreases |s|
  {
    if s != [] {
      if IsBlank(s[0]) {
        var d := DropBlanks(s);
        assert d == DropBlanks(s[1..]);
        SqueezeBlankRun(s[1..]);
        SqueezeFresh(d, IsBlank);
        CollapseBlanksSqueezes(d);
      } else {
        CollapseBlanksSqueezes(s[1..]);
      }
    }
  }

  // ---- `re.sub(r'\n\n+', '\n\n', s)`

  function DropNewlines(s: string): (r: string)
    ensures |r| <= |s| && r == s[|s| - |r|..]
    ensures r == [] || r[0] != '\n'
  {
    if s != [] && s[0] == '\n' then DropNewlines(s[1..]) else s
  }

  /** Only newlines are dropped. */
  lemma {:induction false} DropNewlinesVisible(s: string)
    ensures Visible(DropNewlines(s)) == Visible(s)
    decreases |s|
  {
    if s != [] && s[0] == '\n' {
      DropNewlinesVisible(s[1..]);
    }
  }

  /** `s` opens with a match of `\n\n+`. */
  predicate RunStart(s: string)
  {
    |s| >= 2 && s[0] == '\n' && s[1] == '\n'
  }

  /** What replaces the front of `s`: the blank line for a run, else its first character. */
  function RunHead(s: string): string
    requires s != []
  {
    if RunStart(s) then "\n\n" else [s[0]]
  }

  /** What is left of `s` after its front. */
  function RunTail(s: string): (t: string)
    requires s != []
    ensures |t| < |s| && t == s[|s| - |t|..]
    ensures RunStart(s) ==> t == [] || t[0] != '\n'
  {
    if RunStart(s) then DropNewlines(s[1..]) else s[1..]
  }

  /** Every run of two or more newlines becomes exactly two; a lone newline stays. */
  function CollapseNewlineRuns(s: string): (r: string)
    ensures (r == []) <==> (s == [])
    ensures r != [] ==> r[0] == s[0]
    decreases |s|
  {
    if s == [] then [] else RunHead(s) + CollapseNewlineRuns(RunTail(s))
  }

  /** The newline-run substitution read one character at a time: a newline that follows
      two newlines disappears, every other character is copied. `before` counts the
      newlines directly before `s`. */
  function CapNewlines(s: string, before: nat): string
  {
    if s == [] then []
    else if s[0] == '\n' then (if before >= 2 then [] else "\n") + CapNewlines(s[1..], before + 1)
    else [s[0]] + CapNewlines(s[1..], 0)
  }

  /** After two newlines, the rest of a run adds nothing, and what follows the run no
      longer depends on its length. */
  lemma {:induction false} CapNewlinesRun(s: string, before: nat)
    requires before >= 2
    ensures CapNewlines(s, before) == CapNewlines(DropNewlines(s), 0)
    decreases |s|
  {
    if s != [] && s[0] == '\n' {
      CapNewlinesRun(s[1..], before + 1);
    }
  }

  /** A run of two or more newlines at the front yields two newlines. */
  lemma CapNewlinesRunStart(s: string)
    requires RunStart(s)
    ensures CapNewlines(s, 0) == "\n\n" + CapNewlines(RunTail(s), 0)
  {
    var u := s[2..];
    assert s[1..][1..] == u;
    assert DropNewlines(s[1..]) == DropNewlines(u);
    CapNewlinesRun(u, 2);
    assert CapNewlines(s[1..], 1) == "\n" + CapNewlines(u, 2);
  }

  /** Any other front character is copied. */
  lemma CapNewlinesOther(s: string)
    requires s != [] && !RunStart(s)
    ensures CapNewlines(s, 0) == [s[0]] + CapNewlines(RunTail(s), 0)
  {
    if s[0] == '\n' {
      assert CapNewlines(s[1..], 1) == CapNewlines(s[1..], 0);
    }
  }

  /** Every run of two or more newlines becomes exactly two, and nothing else changes. */
  lemma {:induction false} CollapseNewlineRunsCaps(s: string)
    ensures CollapseNewlineRuns(s) == CapNewlines(s, 0)
    decreases |s|
  {
    if s != [] {
      CollapseNewlineRunsCaps(RunTail(s));
      if RunStart(s) {
        CapNewlinesRunStart(s);
      } else {
        CapNewlinesOther(s);
      }
    }
  }

  /** No three newlines in a row remain. */
  lemma {:induction false} CollapseNewlineRunsNoTriple(s: string)
    ensures NoTripleNewline(CollapseNewlineRuns(s))
    decreases |s|
  {
    if s != [] {
      var rest := CollapseNewlineRuns(RunTail(s));
      CollapseNewlineRunsNoTriple(RunTail(s));
      if RunStart(s) {
        NoTripleAfterBlankLine(rest);
      } else {
        NoTripleCons(s[0], rest);
      }
    }
  }

  lemma NoTripleAfterBlankLine(rest: string)
    requires NoTripleNewline(rest) && (rest == [] || rest[0] != '\n')
    ensures NoTripleNewline("\n\n" + rest)
  {
    var r := "\n\n" + rest;
    forall i ensures !TripleNewlineAt(r, i) {
      if 2 <= i && i + 2 < |r| {
        assert r[i] == rest[i - 2] && r[i + 1] == rest[i - 1] && r[i + 2] == rest[i];
        assert !TripleNewlineAt(rest, i - 2);
      } else if 0 <= i < 2 && i + 2 < |r| {
        assert r[2] == rest[0];
      }
    }
  }

  lemma NoTripleCons(c: char, rest: string)
    requires NoTripleNewline(rest)
    requires !(c == '\n' && |rest| >= 2 && rest[0] == '\n' && rest[1] == '\n')
    ensures NoTripleNewline([c] + rest)
  {
    var r := [c] + rest;
    forall i ensures !TripleNewlineAt(r, i) {
      if 0 < i && i + 2 < |r| {
        assert r[i] == rest[i - 1] && r[i + 1] == rest[i] && r[i + 2] == rest[i + 1];
        assert !TripleNewlineAt(rest, i - 1);
      }
    }
  }

  /** Collapsing blank lines touches newlines only: no tab appears. */
  lemma {:induction false} CollapseNewlineRunsNoTab(s: string)
    requires NoTab(s)
    ensures NoTab(CollapseNewlineRuns(s))
    decreases |s|
  {
    if s != [] {
      var t := RunTail(s);
      assert t == s[|s| - |t|..|s|];
      CollapseNewlineRunsNoTab(t);
      assert NoTab(RunHead(s)) by { assert s[0] != '\t'; }
    }
  }

  /** Nor does a double space. */
  lemma {:induction false} CollapseNewlineRunsNoDoubleSpace(s: string)
    requires NoDoubleSpace(s)
    ensures NoDoubleSpace(CollapseNewlineRuns(s))
    decreases |s|
  {
    if s != [] {
      var t := RunTail(s);
      NoDoubleSpaceSlice(s, |s| - |t|, |s|);
      assert t == s[|s| - |t|..|s|];
      CollapseNewlineRunsNoDoubleSpace(t);
      var h := RunHead(s);
      assert NoDoubleSpace(h) by {
        if RunStart(s) {
          assert h == "\n\n";
        } else {
          assert h == [s[0]];
        }
      }
      assert t == [] || h[|h| - 1] != ' ' || t[0] != ' ' by {
        if !RunStart(s) && t != [] {
          assert t[0] == s[1];
          assert !DoubleSpaceAt(s, 0);
        }
      }
      NoDoubleSpaceConcat(h, CollapseNewlineRuns(t));
    }
  }

  /** Collapsing blank lines drops newlines only. */
  lemma {:induction false} CollapseNewlineRunsVisible(s: string)
    ensures Visible(CollapseNewlineRuns(s)) == Visible(s)
    decreases |s|
  {
    if s != [] {
      var t := RunTail(s);
      var h := RunHead(s);
      CollapseNewlineRunsVisible(t);
      VisibleConcat(h, CollapseNewlineRuns(t));
      assert Visible(s) == Visible(h) + Visible(t) by {
        if RunStart(s) {
          assert Visible("\n\n") == [];
          DropNewlinesVisible(s[1..]);
          assert Visible(s) == Visible(s[1..]);
        } else {
          assert s == [s[0]] + s[1..];
          VisibleConcat([s[0]], s[1..]);
        }
      }
    }
  }

  /** The `text/plain` branch: each run of spaces and tabs becomes one space, each run of
      two or more newlines becomes two, then `strip()`. */
  function NormalizePlainText(s: string): (r: string)
    ensures r == Strip(CapNewlines(Squeeze(s, IsBlank, false), 0))
    ensures Clean(r)
    ensures Visible(r) == Visible(s)
  {
    var b := CollapseBlanks(s);
    var c := CollapseNewlineRuns(b);
    CollapseBlanksSqueezes(s);
    CollapseNewlineRunsCaps(b);
    CollapseNewlineRunsNoTab(b);
    CollapseNewlineRunsNoDoubleSpace(b);
    CollapseNewlineRunsNoTriple(b);
    CollapseNewlineRunsVisible(b);
    StripNoTab(c);
    StripNoDoubleSpace(c);
    StripNoTriple(c);
    StripVisible(c);
    Strip(c)
  }

  // ---- `"\n".join(line.strip() for line in s.splitlines())`

  /** The line boundaries of `str.splitlines()`; `\r\n` counts as one. */
  predicate IsLineBoundary(c: char)
  {
    c == '\n' || c == '\r' || c == '\U{B}' || c == '\U{C}' || ('\U{1C}' <= c <= '\U{1E}')
    || c == '\U{85}' || c == '\U{2028}' || c == '\U{2029}'
  }

  lemma BoundaryIsSpace(c: char)
    requires IsLineBoundary(c)
    ensures IsPySpace(c)
  {
  }

  /** Index of the first line boundary in `s`, or `|s|`. */
  function LineEnd(s: string): (k: nat)
    ensures k <= |s|
    ensures forall i :: 0 <= i < k ==> !IsLineBoundary(s[i])
    ensures k < |s| ==> IsLineBoundary(s[k])
  {
    if s == [] || IsLineBoundary(s[0]) then 0 else 1 + LineEnd(s[1..])
  }

  /** Concatenated visible characters of a list of lines. */
  function VisibleLines(lines: seq<string>): string
  {
    if lines == [] then [] else Visible(lines[0]) + VisibleLines(lines[1..])
  }

  /** Python's `str.splitlines()` without `keepends`: no trailing empty line, and
      no line at all for the empty string. */
  function SplitLines(s: string): (lines: seq<string>)
    decreases |s|
  {
    if s == [] then []
    else
      var k := LineEnd(s);
      if k == |s| then [s]
      else [s[..k]] + SplitLines(s[LineNext(s, k)..])
  }

  /** Where the next line starts after the boundary at `k`. */
  function LineNext(s: string, k: nat): (next: nat)
    requires k < |s|
    ensures k < next <= |s| && next <= k + 2
  {
    if s[k] == '\r' && k + 1 < |s| && s[k + 1] == '\n' then k + 2 else k + 1
  }

  /** The first line and the text after its boundary. */
  lemma SplitLinesCons(s: string)
    requires s != [] && LineEnd(s) < |s|
    ensures SplitLines(s) == [s[..LineEnd(s)]] + SplitLines(s[LineNext(s, LineEnd(s))..])
  {
  }

  /** Every line is a piece of `s`: a text without tabs splits into lines without tabs. */
  lemma {:induction false} SplitLinesNoTab(s: string)
    requires NoTab(s)
    ensures forall k :: 0 <= k < |SplitLines(s)| ==> NoTab(SplitLines(s)[k])
    decreases |s|
  {
    if s != [] && LineEnd(s) < |s| {
      var k := LineEnd(s);
      var next := LineNext(s, k);
      assert s[next..] == s[next..|s|];
      SplitLinesNoTab(s[next..]);
      SplitLinesCons(s);
    }
  }

  /** The same for double spaces. */
  lemma {:induction false} SplitLinesNoDoubleSpace(s: string)
    requires NoDoubleSpace(s)
    ensures forall k :: 0 <= k < |SplitLines(s)| ==> NoDoubleSpace(SplitLines(s)[k])
    decreases |s|
  {
    if s != [] && LineEnd(s) < |s| {
      var k := LineEnd(s);
      var next := LineNext(s, k);
      NoDoubleSpaceSlice(s, 0, k);
      NoDoubleSpaceSlice(s, next, |s|);
      assert s[next..] == s[next..|s|];
      SplitLinesNoDoubleSpace(s[next..]);
      SplitLinesCons(s);
    }
  }

  /** Only line boundaries are dropped. */
  lemma {:induction false} SplitLinesVisible(s: string)
    ensures VisibleLines(SplitLines(s)) == Visible(s)
    decreases |s|
  {
    if s != [] {
      var k := LineEnd(s);
      if k == |s| {
        assert VisibleLines([s]) == Visible(s) + VisibleLines([]);
      } else {
        var next := LineNext(s, k);
        var rest := SplitLines(s[next..]);
        SplitLinesVisible(s[next..]);
        if next == k + 2 {
          assert s[k + 1] == '\n';
        }
        LineEndVisible(s, k, next);
        SplitLinesCons(s);
        assert SplitLines(s)[1..] == rest;
      }
    }
  }

  lemma SplitThree(s: string, k: nat, next: nat)
    requires k <= next <= |s|
    ensures s == s[..k] + (s[k..next] + s[next..])
  {
    assert s[k..] == s[k..next] + s[next..];
    assert s == s[..k] + s[k..];
  }

  lemma GapInvisible(s: string, k: nat, next: nat)
    requires k < next <= |s| && next <= k + 2
    requires IsLineBoundary(s[k]) && (next == k + 2 ==> IsLineBoundary(s[k + 1]))
    ensures Visible(s[k..next]) == []
  {
    BoundaryIsSpace(s[k]);
    if next == k + 2 {
      BoundaryIsSpace(s[k + 1]);
    }
    VisibleOfSpace(s[k..next]);
  }

  lemma LineEndVisible(s: string, k: nat, next: nat)
    requires k < next <= |s| && next <= k + 2
    requires IsLineBoundary(s[k]) && (next == k + 2 ==> IsLineBoundary(s[k + 1]))
    ensures Visible(s) == Visible(s[..k]) + Visible(s[next..])
  {
    var pre, gap, post := s[..k], s[k..next], s[next..];
    calc {
      Visible(s);
      { SplitThree(s, k, next); }
      Visible(pre + (gap + post));
      { VisibleConcat(pre, gap + post); }
      Visible(pre) + Visible(gap + post);
      { VisibleConcat(gap, post); GapInvisible(s, k, next); }
      Visible(pre) + Visible(post);
    }
  }

  function StripLines(lines: seq<string>): (r: seq<string>)
    ensures |r| == |lines|
    ensures forall k :: 0 <= k < |r| ==> r[k] == Strip(lines[k])
  {
    if lines == [] then [] else [Strip(lines[0])] + StripLines(lines[1..])
  }

  lemma {:induction false} StripLinesVisible(lines: seq<string>)
    ensures VisibleLines(StripLines(lines)) == VisibleLines(lines)
  {
    if lines != [] {
      StripVisible(lines[0]);
      StripLinesVisible(lines[1..]);
      assert StripLines(lines)[1..] == StripLines(lines[1..]);
    }
  }

  lemma StripLinesNoTab(lines: seq<string>)
    requires forall k :: 0 <= k < |lines| ==> NoTab(lines[k])
    ensures forall k :: 0 <= k < |lines| ==> NoTab(StripLines(lines)[k])
  {
    forall k | 0 <= k < |lines| ensures NoTab(StripLines(lines)[k]) {
      StripNoTab(lines[k]);
    }
  }

  lemma StripLinesNoDoubleSpace(lines: seq<string>)
    requires forall k :: 0 <= k < |lines| ==> NoDoubleSpace(lines[k])
    ensures forall k :: 0 <= k < |lines| ==> NoDoubleSpace(StripLines(lines)[k])
  {
    forall k | 0 <= k < |lines| ensures NoDoubleSpace(StripLines(lines)[k]) {
      StripNoDoubleSpace(lines[k]);
    }
  }

  /** Joining lines with newlines adds only whitespace. */
  lemma {:induction false} JoinNewlineVisible(lines: seq<string>)
    ensures Visible(Join(lines, "\n")) == VisibleLines(lines)
  {
    if |lines| == 1 {
      assert VisibleLines(lines) == Visible(lines[0]) + VisibleLines([]);
    } else if |lines| > 1 {
      var rest := Join(lines[1..], "\n");
      JoinNewlineVisible(lines[1..]);
      VisibleConcat(lines[0] + "\n", rest);
      VisibleConcat(lines[0], "\n");
      assert Visible("\n") == [];
    }
  }

  /** Joining lines with newlines adds no tab. */
  lemma {:induction false} JoinNewlineNoTab(lines: seq<string>)
    requires forall k :: 0 <= k < |lines| ==> NoTab(lines[k])
    ensures NoTab(Join(lines, "\n"))
  {
    if |lines| > 1 {
      JoinNewlineNoTab(lines[1..]);
      assert NoTab("\n");
    }
  }

  /** Nor a double space: every line ends before a newline. */
  lemma {:induction false} JoinNewlineNoDoubleSpace(lines: seq<string>)
    requires forall k :: 0 <= k < |lines| ==> NoDoubleSpace(lines[k])
    ensures NoDoubleSpace(Join(lines, "\n"))
  {
    if |lines| > 1 {
      JoinNewlineNoDoubleSpace(lines[1..]);
      assert NoDoubleSpace("\n");
      NoDoubleSpaceConcat(lines[0], "\n");
      assert (lines[0] + "\n")[|lines[0] + "\n"| - 1] == '\n';
      NoDoubleSpaceConcat(lines[0] + "\n", Join(lines[1..], "\n"));
    }
  }

  /** The text that the HTML parser leaves, normalised as the `text/html` branch does:
      blanks collapsed, every line stripped, blank lines collapsed, then `strip()`. */
  function NormalizeHtmlText(s: string): (r: string)
    ensures r == Strip(CapNewlines(Join(StripLines(SplitLines(Squeeze(s, IsBlank, false))), "\n"), 0))
    ensures Clean(r)
    ensures Visible(r) == Visible(s)
  {
    var blanks := CollapseBlanks(s);
    CollapseBlanksSqueezes(s);
    var lines := SplitLines(blanks);
    SplitLinesNoTab(blanks);
    SplitLinesNoDoubleSpace(blanks);
    SplitLinesVisible(blanks);
    var stripped := StripLines(lines);
    StripLinesVisible(lines);
    StripLinesNoTab(lines);
    StripLinesNoDoubleSpace(lines);
    JoinNewlineNoTab(stripped);
    JoinNewlineNoDoubleSpace(stripped);
    JoinNewlineVisible(stripped);
    var joined := Join(stripped, "\n");
    var c := CollapseNewlineRuns(joined);
    CollapseNewlineRunsCaps(joined);
    CollapseNewlineRunsNoTab(joined);
    CollapseNewlineRunsNoDoubleSpace(joined);
    CollapseNewlineRunsNoTriple(joined);
    CollapseNewlineRunsVisible(joined);
    StripNoTab(c);
    StripNoDoubleSpace(c);
    StripNoTriple(c);
    StripVisible(c);
    Strip(c)
  }
}
