/** Texts as lines, the way Python's `splitlines` and blank tests see them. */
module TextLines {
  import opened Basics

  predicate IsBreak(ch: char) {
    || ch == '\n' || ch == '\r' || ch == '\U{000B}' || ch == '\U{000C}'
    || '\U{001C}' <= ch <= '\U{001E}' || ch == '\U{0085}' || '\U{2028}' <= ch <= '\U{2029}'
  }

  predicate IsSpace(ch: char) {
    || IsBreak(ch) || ch == '\t' || ch == ' ' || ch == '\U{001F}' || ch == '\U{00A0}' || ch == '\U{1680}'
    || '\U{2000}' <= ch <= '\U{200A}' || ch == '\U{202F}' || ch == '\U{205F}' || ch == '\U{3000}'
  }

  predicate BreakFree(s: string) {
    forall ch :: ch in s ==> !IsBreak(ch)
  }

  predicate Blank(s: string) {
    forall ch :: ch in s ==> IsSpace(ch)
  }

  /** The length of the first line. */
  function FirstBreak(s: string): (k: nat)
    ensures k <= |s| && BreakFree(s[..k]) && (k < |s| ==> IsBreak(s[k]))
  {
    if s == "" || IsBreak(s[0]) then 0
    else
      var k := FirstBreak(s[1..]);
      assert s[..k + 1] == [s[0]] + s[1..][..k];
      k + 1
  }

  /** A carriage return and a line feed together are one break. */
  function BreakLength(s: string, k: nat): (n: nat)
    requires k < |s|
    ensures 1 <= n && k + n <= |s|
  {
    if s[k] == '\r' && k + 1 < |s| && s[k + 1] == '\n' then 2 else 1
  }

  function SplitLines(s: string): (lines: seq<string>)
    ensures forall l :: l in lines ==> BreakFree(l)
    decreases |s|
  {
    if s == "" then []
    else
      var k := FirstBreak(s);
      if k == |s| then
        assert s[..k] == s;
        [s]
      else [s[..k]] + SplitLines(s[k + BreakLength(s, k)..])
  }

  /** Each line with a line feed after it. */
  function Unlines(lines: seq<string>): string {
    if lines == [] then "" else lines[0] + "\n" + Unlines(lines[1..])
  }

  lemma {:induction false} FirstBreakAfter(x: string, y: string)
    requires BreakFree(x)
    ensures FirstBreak(x + y) == |x| + FirstBreak(y)
  {
    if x == "" {
      assert x + y == y;
    } else {
      assert x[0] in x && forall ch :: ch in x[1..] ==> ch in x;
      FirstBreakAfter(x[1..], y);
      assert (x + y)[0] == x[0] && (x + y)[1..] == x[1..] + y;
    }
  }

  lemma FirstLine(line: string, rest: string)
    requires BreakFree(line)
    ensures SplitLines(line + "\n" + rest) == [line] + SplitLines(rest)
  {
    hide BreakFree;
    var s, k := line + "\n" + rest, |line|;
    FirstBreakAfter(line, "\n" + rest);
    assert s == line + ("\n" + rest) && s[k] == '\n' && s[..k] == line && s[k + 1..] == rest;
  }

  /** Lines without breaks survive being written out and read back. */
  lemma {:induction false} SplitUnlines(lines: seq<string>)
    requires forall l :: l in lines ==> BreakFree(l)
    ensures SplitLines(Unlines(lines)) == lines
  {
    hide BreakFree, SplitLines;
    if lines == [] {
      NothingToSplit();
    } else {
      assert lines[0] in lines && forall l :: l in lines[1..] ==> l in lines;
      FirstLine(lines[0], Unlines(lines[1..]));
      SplitUnlines(lines[1..]);
    }
  }

  lemma NothingToSplit()
    ensures SplitLines("") == []
  {
  }

  /** The first line and the text behind its break. */
  lemma {:induction false} SplitStep(s: string)
    requires s != ""
    ensures
      var k := FirstBreak(s);
      SplitLines(s) == if k == |s| then [s] else [s[..k]] + SplitLines(s[k + BreakLength(s, k)..])
  {
    hide FirstBreak, BreakLength, BreakFree;
    assert s[..|s|] == s;
  }

  /** A text without breaks goes in front of the first line. */
  lemma {:induction false} SplitPrefix(x: string, y: string)
    requires BreakFree(x) && y != ""
    ensures SplitLines(y) != [] && SplitLines(x + y) == [x + SplitLines(y)[0]] + SplitLines(y)[1..]
  {
    hide BreakFree, IsBreak, FirstBreak, SplitLines;
    FirstBreakAfter(x, y);
    SplitStep(y);
    SplitStep(x + y);
    var k, n := FirstBreak(y), |x|;
    if k < |y| {
      assert (x + y)[..n + k] == x + y[..k];
      assert BreakLength(x + y, n + k) == BreakLength(y, k);
      assert (x + y)[n + k + BreakLength(y, k)..] == y[k + BreakLength(y, k)..];
    }
  }

  /** The first break of a longer text is that of its beginning. */
  lemma FirstBreakStays(x: string, more: string)
    requires FirstBreak(x) < |x|
    ensures FirstBreak(x + more) == FirstBreak(x)
  {
    hide BreakFree;
    var k := FirstBreak(x);
    FirstBreakAfter(x[..k], x[k..] + more);
    assert x + more == x[..k] + (x[k..] + more);
  }

  /** A break before the last character stays the same break in a longer text. */
  lemma BreakWithin(x: string, k: nat, more: string)
    requires k < |x| && IsBreak(x[k]) && !IsBreak(x[|x| - 1])
    ensures
      var n := k + BreakLength(x, k);
      && n < |x| && BreakLength(x + more, k) == BreakLength(x, k) && (x + more)[..k] == x[..k]
      && x[n..] != "" && x[n..][|x[n..]| - 1] == x[|x| - 1]
  {
  }

  /** A line feed behind a text that does not end in a break separates its lines from the rest. */
  lemma {:induction false} SplitAtFeed(x: string, rest: string)
    requires x != "" && !IsBreak(x[|x| - 1])
    ensures SplitLines(x + "\n" + rest) == SplitLines(x) + SplitLines(rest)
    decreases |x|
  {
    hide BreakFree, IsBreak, BreakLength, FirstBreak, SplitLines;
    var k, s := FirstBreak(x), x + "\n" + rest;
    SplitStep(x);
    if k == |x| {
      assert x[..k] == x;
      FirstLine(x, rest);
    } else {
      var n := k + BreakLength(x, k);
      SplitStep(s);
      assert s == x + ("\n" + rest);
      FirstBreakStays(x, "\n" + rest);
      BreakWithin(x, k, "\n" + rest);
      SplitAtFeed(x[n..], rest);
      assert s[n..] == x[n..] + "\n" + rest;
      assert [x[..k]] + (SplitLines(x[n..]) + SplitLines(rest)) == [x[..k]] + SplitLines(x[n..]) + SplitLines(rest);
    }
  }

  /** Between lines without breaks, a text is read back as its own lines. */
  lemma {:induction false} SplitAround(before: seq<string>, x: string, after: seq<string>)
    requires (forall l :: l in before ==> BreakFree(l)) && (forall l :: l in after ==> BreakFree(l))
    requires x != "" && !IsBreak(x[|x| - 1])
    ensures SplitLines(Unlines(before + [x] + after)) == before + SplitLines(x) + after
  {
    hide BreakFree, IsBreak, SplitLines;
    if before == [] {
      assert before + [x] + after == [x] + after && ([x] + after)[1..] == after;
      SplitAtFeed(x, Unlines(after));
      SplitUnlines(after);
      assert before + SplitLines(x) == SplitLines(x);
    } else {
      var head, later := before[0], before[1..];
      assert head in before && forall l :: l in later ==> l in before;
      assert (before + [x] + after)[1..] == later + [x] + after;
      FirstLine(head, Unlines(later + [x] + after));
      SplitAround(later, x, after);
      assert before + SplitLines(x) + after == [head] + (later + SplitLines(x) + after);
    }
  }

  lemma Breaks(ch: char)
    ensures IsBreak(ch) <==>
            ch in ['\n', '\r', '\U{000B}', '\U{000C}', '\U{001C}', '\U{001D}', '\U{001E}', '\U{0085}', '\U{2028}',
                   '\U{2029}']
  {
  }

  /** Each of the line breaks ends a line; a carriage return in front of a line feed is part of the same break. */
  lemma {:induction false} SplitAtBreak(line: string, ch: char, rest: string)
    requires BreakFree(line) && IsBreak(ch) && (ch == '\r' ==> rest == "" || rest[0] != '\n')
    ensures SplitLines(line + ([ch] + rest)) == [line] + SplitLines(rest)
  {
    hide BreakFree, SplitLines, IsBreak;
    var k, s := |line|, line + ([ch] + rest);
    FirstBreakAfter(line, [ch] + rest);
    SplitStep(s);
    assert s[..k] == line && s[k] == ch && s[k + 1..] == rest;
  }

  lemma {:induction false} SplitAtCrLf(line: string, rest: string)
    requires BreakFree(line)
    ensures SplitLines(line + (['\r', '\n'] + rest)) == [line] + SplitLines(rest)
  {
    hide BreakFree, SplitLines, IsBreak;
    var k, s := |line|, line + (['\r', '\n'] + rest);
    Breaks('\r');
    assert ['\r', '\n'] + rest == ['\r'] + (['\n'] + rest);
    FirstBreakAfter(line, ['\r', '\n'] + rest);
    SplitStep(s);
    assert s[..k] == line && s[k] == '\r' && s[k + 1] == '\n' && s[k + 2..] == rest;
  }

  // ----- blanks -----

  function SkipSpace(s: string): string {
    if s != "" && IsSpace(s[0]) then SkipSpace(s[1..]) else s
  }

  function DropSpace(s: string): string {
    if s != "" && IsSpace(s[|s| - 1]) then DropSpace(s[..|s| - 1]) else s
  }

  function Strip(s: string): string {
    DropSpace(SkipSpace(s))
  }

  lemma {:induction false} SkipBlank(indent: string, s: string)
    requires Blank(indent) && (s != "" ==> !IsSpace(s[0]))
    ensures SkipSpace(indent + s) == s
  {
    if indent == "" {
      assert indent + s == s;
    } else {
      assert indent[0] in indent && forall ch :: ch in indent[1..] ==> ch in indent;
      assert (indent + s)[1..] == indent[1..] + s;
      SkipBlank(indent[1..], s);
    }
  }

  lemma StripIndented(indent: string, s: string)
    requires Blank(indent) && s != "" && !IsSpace(s[0]) && !IsSpace(s[|s| - 1])
    ensures Strip(indent + s) == s
  {
    SkipBlank(indent, s);
  }
}
