/**
 * The rewriter that replaces the Lakebase environment variables of a `databricks.yml`: it drops the
 * lines it manages and puts the lines of the chosen configuration where the first of them was.
 */
module EnvRewriter {
  import opened Basics
  import opened TextLines

  datatype Config = Provisioned(instanceName: string) | Autoscaling

  // ----- tests on one line -----

  function StripHashes(s: string): string {
    if s != "" && s[0] == '#' then StripHashes(s[1..]) else s
  }

  /**
   * Lower-casing as far as it can give an ASCII text: besides the ASCII capitals, only the Kelvin sign has
   * an ASCII lower case.
   */
  function LowerChar(ch: char): char {
    if 'A' <= ch <= 'Z' then ch - 'A' + 'a' else if ch == '\U{212A}' then 'k' else ch
  }

  function Lower(s: string): string {
    if s == "" then "" else [LowerChar(s[0])] + Lower(s[1..])
  }

  const SECTIONS := {
    "autoscaling lakebase config", "use for provisioned lakebase resource", "provisioned lakebase config"
  }

  /** A section comment, with or without hash signs. */
  predicate IsSection(line: string) {
    Lower(Strip(StripHashes(Strip(line)))) in SECTIONS
  }

  const INSTANCE_NAME := "- name: LAKEBASE_INSTANCE_NAME"
  const AUTOSCALING_ENDPOINT := "- name: LAKEBASE_AUTOSCALING_ENDPOINT"
  const AUTOSCALING_PROJECT := "- name: LAKEBASE_AUTOSCALING_PROJECT"
  const AUTOSCALING_BRANCH := "- name: LAKEBASE_AUTOSCALING_BRANCH"

  predicate Contains(s: string, part: string) {
    part <= s || (s != "" && Contains(s[1..], part))
  }

  /** A line that names one of the managed variables. */
  predicate IsManaged(line: string) {
    var s := Strip(line);
    || Contains(s, INSTANCE_NAME) || Contains(s, AUTOSCALING_ENDPOINT)
    || Contains(s, AUTOSCALING_PROJECT) || Contains(s, AUTOSCALING_BRANCH)
  }

  predicate StartsKey(s: string, key: string) {
    key <= s && var rest := SkipSpace(s[|key|..]); rest != "" && rest[0] == ':'
  }

  /** A `value:` or `value_from:` line, possibly commented out. */
  predicate IsValue(line: string) {
    var s := SkipSpace(line);
    var t := if s != "" && s[0] == '#' then SkipSpace(s[1..]) else s;
    StartsKey(t, "value") || StartsKey(t, "value_from")
  }

  /** The indent of an environment variable line. */
  function IndentOf(line: string): Option<string> {
    var s := SkipSpace(line);
    if |s| < |line| && "- name: " <= s then Some(line[..|line| - |s|]) else None
  }

  // ----- the scan -----

  /** The lines that stay; `skip` says that the line before was a managed variable. */
  function Keep(lines: seq<string>, skip: bool): seq<string> {
    if lines == [] then []
    else if skip && IsValue(lines[0]) then Keep(lines[1..], false)
    else if IsSection(lines[0]) then Keep(lines[1..], false)
    else if IsManaged(lines[0]) then Keep(lines[1..], true)
    else [lines[0]] + Keep(lines[1..], false)
  }

  /** How many lines stay before the first section comment or managed variable. */
  function Mark(lines: seq<string>, skip: bool): (m: Option<nat>)
    ensures m.Some? ==> m.value <= |Keep(lines, skip)|
  {
    if lines == [] then None
    else if skip && IsValue(lines[0]) then Mark(lines[1..], false)
    else if IsSection(lines[0]) || IsManaged(lines[0]) then Some(0)
    else match Mark(lines[1..], false)
      case None => None
      case Some(k) => Some(k + 1)
  }

  const DEFAULT_INDENT := "          "

  function Indent(kept: seq<string>): string {
    if kept == [] then DEFAULT_INDENT
    else match IndentOf(kept[0])
      case Some(indent) => indent
      case None => Indent(kept[1..])
  }

  const PROVISIONED_VALUE := "  value: \""
  const AUTOSCALING_VALUE := "  value_from: \"postgres\""

  function Block(indent: string, c: Config): seq<string> {
    match c
    case Provisioned(name) => [indent + INSTANCE_NAME, indent + (PROVISIONED_VALUE + name + "\"")]
    case Autoscaling => [indent + AUTOSCALING_ENDPOINT, indent + AUTOSCALING_VALUE]
  }

  function Rewrite(content: string, c: Config): string {
    var lines := SplitLines(content);
    var kept := Keep(lines, false);
    match Mark(lines, false)
    case None => content
    case Some(k) => Unlines(kept[..k] + Block(Indent(kept), c) + kept[k..])
  }

  /** One line of the scan. */
  lemma ScanStep(lines: seq<string>, i: nat, skip: bool)
    requires i < |lines|
    ensures
      var line, kept := lines[i], Keep(lines[i..], skip);
      var mark := Mark(lines[i..], skip);
      if skip && IsValue(line) then kept == Keep(lines[i + 1..], false) && mark == Mark(lines[i + 1..], false)
      else if IsSection(line) then kept == Keep(lines[i + 1..], false) && mark == Some(0)
      else if IsManaged(line) then kept == Keep(lines[i + 1..], true) && mark == Some(0)
      else
        && kept == [line] + Keep(lines[i + 1..], false)
        && mark == match Mark(lines[i + 1..], false) case None => None case Some(k) => Some(k + 1)
  {
    hide IsValue, IsSection, IsManaged;
    assert lines[i..][0] == lines[i] && lines[i..][1..] == lines[i + 1..];
  }

  lemma ScanEnd(lines: seq<string>, result: seq<string>)
    ensures result + Keep(lines[|lines|..], false) == result && result + Keep(lines[|lines|..], true) == result
    ensures Mark(lines[|lines|..], false) == None && Mark(lines[|lines|..], true) == None
  {
  }

  method ReplaceLakebaseEnvVars(content: string, c: Config) returns (text: string)
    ensures text == Rewrite(content, c)
  {
    hide IsValue, IsSection, IsManaged, IndentOf, SplitLines, Unlines, Block, Keep, Mark;
    var lines := SplitLines(content);
    var result: seq<string> := [];
    var insertIdx: Option<nat> := None;
    var skipNextValue := false;
    var i := 0;
    assert lines[0..] == lines && result + Keep(lines, false) == Keep(lines, false);
    while i < |lines|
      invariant 0 <= i <= |lines|
      invariant result + Keep(lines[i..], skipNextValue) == Keep(lines, false)
      invariant insertIdx.Some? ==> insertIdx == Mark(lines, false) && insertIdx.value <= |result|
      invariant insertIdx.None? ==>
        Mark(lines, false) == match Mark(lines[i..], skipNextValue) case None => None case Some(k) => Some(k + |result|)
    {
      var line := lines[i];
      ScanStep(lines, i, skipNextValue);
      i := i + 1;
      if skipNextValue {
        skipNextValue := false;
        if IsValue(line) {
          continue;
        }
      }
      if IsSection(line) {
        if insertIdx.None? {
          insertIdx := Some(|result|);
        }
        continue;
      }
      if IsManaged(line) {
        if insertIdx.None? {
          insertIdx := Some(|result|);
        }
        skipNextValue := true;
        continue;
      }
      result := result + [line];
    }
    ScanEnd(lines, result);
    if insertIdx.None? {
      return content;
    }
    var indent := DEFAULT_INDENT;
    var j := 0;
    assert result[0..] == result;
    while j < |result|
      invariant 0 <= j <= |result| && indent == DEFAULT_INDENT
      invariant Indent(result[j..]) == Indent(result)
    {
      assert result[j..][1..] == result[j + 1..];
      var found := IndentOf(result[j]);
      if found.Some? {
        indent := found.value;
        break;
      }
      j := j + 1;
    }
    assert indent == Indent(result);
    text := Unlines(result[..insertIdx.value] + Block(indent, c) + result[insertIdx.value..]);
  }

  // ----- which lines stay -----

  /** Line `i` is taken as the value of a managed variable on the line before. */
  predicate ValueAt(lines: seq<string>, i: nat)
    requires i < |lines|
    decreases i, 0
  {
    i > 0 && VariableAt(lines, i - 1) && IsValue(lines[i])
  }

  predicate VariableAt(lines: seq<string>, i: nat)
    requires i < |lines|
    decreases i, 1
  {
    !ValueAt(lines, i) && !IsSection(lines[i]) && IsManaged(lines[i])
  }

  predicate ManagedAt(lines: seq<string>, i: nat)
    requires i < |lines|
  {
    ValueAt(lines, i) || IsSection(lines[i]) || IsManaged(lines[i])
  }

  /** The lines from `i` on that are not managed, in order. */
  function Unmanaged(lines: seq<string>, i: nat): seq<string>
    requires i <= |lines|
    decreases |lines| - i
  {
    if i == |lines| then []
    else (if ManagedAt(lines, i) then [] else [lines[i]]) + Unmanaged(lines, i + 1)
  }

  lemma {:induction false} KeepUnmanaged(lines: seq<string>, i: nat)
    requires i <= |lines|
    ensures Keep(lines[i..], i > 0 && VariableAt(lines, i - 1)) == Unmanaged(lines, i)
    decreases |lines| - i
  {
    hide IsValue, IsSection, IsManaged;
    if i < |lines| {
      KeepUnmanaged(lines, i + 1);
      assert lines[i..][0] == lines[i] && lines[i..][1..] == lines[i + 1..];
      assert [] + Unmanaged(lines, i + 1) == Unmanaged(lines, i + 1);
    }
  }

  /** No line is a section comment or names a managed variable. */
  predicate Plain(lines: seq<string>) {
    forall l :: l in lines ==> !IsSection(l) && !IsManaged(l)
  }

  lemma {:induction false} KeepIsPlain(lines: seq<string>, skip: bool)
    ensures Plain(Keep(lines, skip))
    ensures forall l :: l in Keep(lines, skip) ==> l in lines
  {
    hide IsValue, IsSection, IsManaged;
    if lines != [] {
      KeepIsPlain(lines[1..], false);
      KeepIsPlain(lines[1..], true);
    }
  }

  lemma {:induction false} PlainStays(lines: seq<string>)
    requires Plain(lines)
    ensures Keep(lines, false) == lines && Mark(lines, false) == None
  {
    hide IsValue, IsSection, IsManaged;
    if lines != [] {
      assert lines[0] in lines && forall l :: l in lines[1..] ==> l in lines;
      PlainStays(lines[1..]);
    }
  }

  /** A block of one managed variable and its value between plain lines is found and dropped. */
  lemma {:induction false} BlockDropped(before: seq<string>, variable: string, value: string, after: seq<string>)
    requires Plain(before) && Plain(after)
    requires IsManaged(variable) && !IsSection(variable) && IsValue(value)
    ensures Keep(before + [variable, value] + after, false) == before + after
    ensures Mark(before + [variable, value] + after, false) == Some(|before|)
  {
    hide IsValue, IsSection, IsManaged;
    var lines := before + [variable, value] + after;
    if before == [] {
      assert lines[0] == variable && lines[1..][0] == value && lines[1..][1..] == after;
      PlainStays(after);
      assert before + after == after;
    } else {
      assert before[0] in before && forall l :: l in before[1..] ==> l in before;
      BlockDropped(before[1..], variable, value, after);
      assert lines[0] == before[0] && lines[1..] == before[1..] + [variable, value] + after;
      assert before + after == [before[0]] + (before[1..] + after);
    }
  }

  // ----- the inserted block is recognised -----

  lemma NotASection(indent: string, v: string)
    requires Blank(indent) && v != "" && v[0] == '-' && !IsSpace(v[|v| - 1])
    ensures Strip(indent + v) == v && !IsSection(indent + v)
  {
    StripIndented(indent, v);
    StripIndented("", v);
    assert "" + v == v && StripHashes(v) == v;
    var bare := Lower(v);
    assert bare[0] == '-';
    assert forall s :: s in SECTIONS ==> s[0] != '-';
  }

  lemma ManagedVariable(indent: string, v: string)
    requires Blank(indent) && (v == INSTANCE_NAME || v == AUTOSCALING_ENDPOINT)
    ensures IsManaged(indent + v) && !IsSection(indent + v)
  {
    hide IsSection;
    NotASection(indent, v);
    assert Contains(v, v);
  }

  lemma ValueLine(indent: string, s: string, key: string)
    requires Blank(indent) && key in {"value", "value_from"}
    requires "  " + key + ":" <= s
    ensures IsValue(indent + s)
  {
    hide BreakFree;
    var rest := s[2..];
    assert s[0] == ("  " + key + ":")[0] && s[1] == ("  " + key + ":")[1];
    assert key + ":" == ("  " + key + ":")[2..] && key + ":" <= rest;
    var blank := indent + [s[0], s[1]];
    assert Blank(blank) && indent + s == blank + rest;
    SkipBlank(blank, rest);
    assert rest[|key|] == (key + ":")[|key|] == ':' && SkipSpace(rest[|key|..]) == rest[|key|..];
    assert key == (key + ":")[..|key|] && key <= rest;
  }

  lemma {:induction false} SkipSpaceCut(line: string)
    ensures |SkipSpace(line)| <= |line| && Blank(line[..|line| - |SkipSpace(line)|])
  {
    if line != "" && IsSpace(line[0]) {
      SkipSpaceCut(line[1..]);
      var n := |line| - |SkipSpace(line)|;
      assert line[..n] == [line[0]] + line[1..][..n - 1];
    }
  }

  lemma {:induction false} IndentIsBlank(kept: seq<string>)
    ensures Blank(Indent(kept))
    ensures (forall l :: l in kept ==> BreakFree(l)) ==> BreakFree(Indent(kept))
  {
    if kept != [] {
      assert kept[0] in kept;
      SkipSpaceCut(kept[0]);
      IndentIsBlank(kept[1..]);
    }
  }

  predicate NamesFit(c: Config) {
    c.Provisioned? ==> BreakFree(c.instanceName)
  }

  lemma BlockRecognised(indent: string, c: Config)
    requires Blank(indent) && BreakFree(indent) && NamesFit(c)
    ensures
      var b := Block(indent, c);
      && |b| == 2 && IsManaged(b[0]) && !IsSection(b[0]) && IsValue(b[1]) && BreakFree(b[0]) && BreakFree(b[1])
  {
    hide IsManaged, IsSection, IsValue, IsBreak, BreakFree, INSTANCE_NAME, AUTOSCALING_ENDPOINT;
    match c
    case Provisioned(name) =>
      ManagedVariable(indent, INSTANCE_NAME);
      ValueLine(indent, PROVISIONED_VALUE + name + "\"", "value");
      BlockBreakFree(indent, name);
    case Autoscaling =>
      ManagedVariable(indent, AUTOSCALING_ENDPOINT);
      ValueLine(indent, AUTOSCALING_VALUE, "value_from");
      BlockBreakFree(indent, indent);
  }

  lemma BreakFreeConcat(a: string, b: string)
    requires BreakFree(a) && BreakFree(b)
    ensures BreakFree(a + b)
  {
    hide IsBreak;
  }

  lemma BlockBreakFree(indent: string, name: string)
    requires BreakFree(indent) && BreakFree(name)
    ensures BreakFree(indent + INSTANCE_NAME) && BreakFree(indent + AUTOSCALING_ENDPOINT)
    ensures BreakFree(indent + (PROVISIONED_VALUE + name + "\"")) && BreakFree(indent + AUTOSCALING_VALUE)
  {
    InstanceBreakFree();
    EndpointBreakFree();
    ValuesBreakFree();
    hide IsBreak, BreakFree, INSTANCE_NAME, AUTOSCALING_ENDPOINT, PROVISIONED_VALUE, AUTOSCALING_VALUE;
    BreakFreeConcat(indent, INSTANCE_NAME);
    BreakFreeConcat(indent, AUTOSCALING_ENDPOINT);
    BreakFreeConcat(indent, AUTOSCALING_VALUE);
    BreakFreeConcat(PROVISIONED_VALUE, name);
    BreakFreeConcat(PROVISIONED_VALUE + name, "\"");
    BreakFreeConcat(indent, PROVISIONED_VALUE + name + "\"");
  }

  lemma InstanceBreakFree()
    ensures BreakFree(INSTANCE_NAME)
  {
  }

  lemma EndpointBreakFree()
    ensures BreakFree(AUTOSCALING_ENDPOINT)
  {
  }

  lemma ValuesBreakFree()
    ensures BreakFree(PROVISIONED_VALUE) && BreakFree("\"")
    ensures BreakFree(AUTOSCALING_VALUE)
  {
  }

  // ----- the laws -----

  /** The lines of a rewritten text, and what a second scan finds in them. */
  lemma RewrittenLines(content: string, c: Config)
    requires NamesFit(c) && Mark(SplitLines(content), false).Some?
    ensures
      var lines := SplitLines(content);
      var kept, k := Keep(lines, false), Mark(lines, false).value;
      var again := SplitLines(Rewrite(content, c));
      && again == kept[..k] + Block(Indent(kept), c) + kept[k..]
      && Keep(again, false) == kept && Mark(again, false) == Some(k)
  {
    hide IsManaged, IsSection, IsValue, Block, IndentOf, BreakFree, Blank, Indent, Unlines, SplitLines;
    var lines := SplitLines(content);
    var kept, k := Keep(lines, false), Mark(lines, false).value;
    KeepIsPlain(lines, false);
    IndentIsBlank(kept);
    var block := Block(Indent(kept), c);
    BlockRecognised(Indent(kept), c);
    var final := kept[..k] + block + kept[k..];
    forall l | l in final ensures BreakFree(l) {
      if l in block {
      } else {
        assert l in kept;
      }
    }
    SplitUnlines(final);
    assert block == [block[0], block[1]];
    BlockDropped(kept[..k], block[0], block[1], kept[k..]);
    assert kept[..k] + kept[k..] == kept;
  }

  /**
   * Last writer wins: for any text and any two configurations, the first of them without a line break in
   * its name, rewriting for the first and then for the second gives exactly the text of rewriting for the
   * second alone.
   */
  lemma LastWriterWins(content: string, first: Config, second: Config)
    requires NamesFit(first)
    ensures Rewrite(Rewrite(content, first), second) == Rewrite(content, second)
  {
    if Mark(SplitLines(content), false).Some? {
      hide Keep, SplitLines, Unlines, Block, Indent;
      RewrittenLines(content, first);
    }
  }

  // ----- what is recognised, and what is written -----

  const DASH := "- name: "

  /** A line that starts a list entry with a name, behind an indent. */
  predicate Indented(line: string, indent: string) {
    indent != "" && Blank(indent) && indent + DASH <= line
  }

  lemma IndentOfExactly(line: string, indent: string)
    ensures IndentOf(line) == Some(indent) <==> Indented(line, indent)
  {
    hide BreakFree;
    SkipSpaceCut(line);
    SkipSpaceEnds(line);
    if Indented(line, indent) {
      var rest := line[|indent|..];
      assert line == indent + rest;
      assert rest[0] == (indent + DASH)[|indent|] == '-';
      SkipBlank(indent, rest);
      assert DASH == (indent + DASH)[|indent|..] && DASH <= rest;
      assert line[..|indent|] == indent;
    }
  }

  lemma {:induction false} SkipSpaceEnds(line: string)
    ensures |SkipSpace(line)| <= |line| && SkipSpace(line) == line[|line| - |SkipSpace(line)|..]
  {
    if line != "" && IsSpace(line[0]) {
      SkipSpaceEnds(line[1..]);
    }
  }

  /** The indent of the block is that of the first named entry that stays, or the usual one if there is none. */
  lemma {:induction false} IndentIsFirst(kept: seq<string>)
    ensures
      || (exists i :: 0 <= i < |kept| && Indented(kept[i], Indent(kept))
                      && forall j, indent :: 0 <= j < i ==> !Indented(kept[j], indent))
      || (Indent(kept) == "          " && forall j, indent :: 0 <= j < |kept| ==> !Indented(kept[j], indent))
  {
    hide Indented, IndentOf;
    if kept != [] {
      match IndentOf(kept[0]) {
        case Some(indent) =>
          IndentOfExactly(kept[0], indent);
          assert Indented(kept[0], Indent(kept));
        case None =>
          forall indent ensures !Indented(kept[0], indent) {
            IndentOfExactly(kept[0], indent);
          }
          var rest := kept[1..];
          IndentIsFirst(rest);
          assert forall j :: 1 <= j < |kept| ==> kept[j] == rest[j - 1];
          if i :| 0 <= i < |rest| && Indented(rest[i], Indent(rest))
                  && forall j, indent :: 0 <= j < i ==> !Indented(rest[j], indent) {
            assert Indented(kept[i + 1], Indent(kept));
          }
      }
    }
  }

  lemma KeyThenColon(s: string, key: string, gap: string, rest: string)
    requires Blank(gap) && s == key + gap + (":" + rest)
    ensures StartsKey(s, key)
  {
    hide BreakFree;
    assert s[|key|..] == gap + (":" + rest);
    SkipBlank(gap, ":" + rest);
  }

  /** Values are recognised with either key, behind any indent, with blanks before the colon, and commented out. */
  lemma ValueForms(lead: string, pad: string, key: string, gap: string, rest: string)
    requires Blank(lead) && Blank(pad) && Blank(gap) && (key == "value" || key == "value_from")
    ensures IsValue(lead + (key + gap + (":" + rest)))
    ensures IsValue(lead + ("#" + (pad + (key + gap + (":" + rest)))))
  {
    hide BreakFree, Blank;
    var s := key + gap + (":" + rest);
    KeyThenColon(s, key, gap, rest);
    SkipBlank(lead, s);
    SkipBlank(lead, "#" + (pad + s));
    SkipBlank(pad, s);
    assert ("#" + (pad + s))[1..] == pad + s;
  }

  lemma {:induction false} ContainsExactly(s: string, part: string)
    ensures Contains(s, part) <==> exists i :: 0 <= i <= |s| && part <= s[i..]
  {
    assert s[0..] == s;
    if s == "" {
      assert s[0..] == "";
    } else {
      ContainsExactly(s[1..], part);
      forall i | 1 <= i <= |s| ensures s[i..] == s[1..][i - 1..] {
      }
    }
  }

  /** Two texts that differ only in the case of ASCII letters. */
  predicate SameUpToCase(a: string, b: string) {
    |a| == |b| && forall i :: 0 <= i < |a| ==> a[i] == b[i] || CaseOf(a[i], b[i]) || CaseOf(b[i], a[i])
  }

  predicate CaseOf(lower: char, upper: char) {
    'A' <= upper <= 'Z' && lower as int == upper as int + 32
  }

  lemma {:induction false} LowerIgnoresCase(a: string, b: string)
    requires SameUpToCase(a, b)
    ensures Lower(a) == Lower(b)
  {
    if a != "" {
      LowerIgnoresCase(a[1..], b[1..]);
    }
  }

  predicate Hashes(s: string) {
    forall ch :: ch in s ==> ch == '#'
  }

  lemma {:induction false} StripHashesIs(hashes: string, s: string)
    requires Hashes(hashes) && (s != "" ==> s[0] != '#')
    ensures StripHashes(hashes + s) == s
  {
    if hashes == "" {
      assert hashes + s == s;
    } else {
      assert hashes[0] in hashes && forall ch :: ch in hashes[1..] ==> ch in hashes;
      assert (hashes + s)[1..] == hashes[1..] + s;
      StripHashesIs(hashes[1..], s);
    }
  }

  lemma BareTitle(lead: string, hashes: string, pad: string, title: string)
    requires Blank(lead) && Hashes(hashes) && hashes != "" && Blank(pad) && (pad != "" ==> pad[0] != '#')
    requires title != "" && title[0] != '#' && !IsSpace(title[0]) && !IsSpace(title[|title| - 1])
    ensures Strip(StripHashes(Strip(lead + (hashes + (pad + title))))) == title
  {
    hide BreakFree;
    var s := hashes + (pad + title);
    assert hashes[0] in hashes;
    assert s[0] == '#' && s[|s| - 1] == title[|title| - 1];
    StripIndented(lead, s);
    StripHashesIs(hashes, pad + title);
    StripIndented(pad, title);
  }

  lemma Titles(s: string)
    ensures s in SECTIONS <==>
            s == "autoscaling lakebase config" || s == "provisioned lakebase config"
            || s == "use for provisioned lakebase resource"
  {
  }

  /** The three section comments are recognised in any case, behind any indent and any hash signs. */
  lemma SectionForms(lead: string, hashes: string, pad: string, title: string)
    requires Blank(lead) && Hashes(hashes) && hashes != "" && Blank(pad) && (pad != "" ==> pad[0] != '#')
    requires title != "" && title[0] != '#' && !IsSpace(title[0]) && !IsSpace(title[|title| - 1])
    requires Lower(title) == "autoscaling lakebase config" || Lower(title) == "provisioned lakebase config"
             || Lower(title) == "use for provisioned lakebase resource"
    ensures IsSection(lead + (hashes + (pad + title)))
  {
    hide Lower, Blank, Hashes, IsSpace, SECTIONS;
    Titles(Lower(title));
    BareTitle(lead, hashes, pad, title);
  }

  /** The variable that a configuration sets. */
  function VariableOf(c: Config): string {
    match c
    case Provisioned(_) => "LAKEBASE_INSTANCE_NAME"
    case Autoscaling => "LAKEBASE_AUTOSCALING_ENDPOINT"
  }

  /** How its value is written. */
  function ValueOf(c: Config): string {
    match c
    case Provisioned(name) => "value: \"" + name + "\""
    case Autoscaling => "value_from: \"postgres\""
  }

  const VARIABLES := ["LAKEBASE_INSTANCE_NAME", "LAKEBASE_AUTOSCALING_ENDPOINT", "LAKEBASE_AUTOSCALING_PROJECT",
                      "LAKEBASE_AUTOSCALING_BRANCH"]

  predicate SetsVariable(line: string, variable: string) {
    Contains(Strip(line), DASH + variable)
  }

  lemma ManagedExactly(line: string)
    ensures IsManaged(line) <==>
            SetsVariable(line, VARIABLES[0]) || SetsVariable(line, VARIABLES[1])
            || SetsVariable(line, VARIABLES[2]) || SetsVariable(line, VARIABLES[3])
  {
    Spelling();
    hide Contains, Strip, INSTANCE_NAME, AUTOSCALING_ENDPOINT, AUTOSCALING_PROJECT, AUTOSCALING_BRANCH;
  }

  lemma Spelling()
    ensures INSTANCE_NAME == DASH + VARIABLES[0] && AUTOSCALING_ENDPOINT == DASH + VARIABLES[1]
    ensures AUTOSCALING_PROJECT == DASH + VARIABLES[2] && AUTOSCALING_BRANCH == DASH + VARIABLES[3]
  {
    hide AUTOSCALING_PROJECT, AUTOSCALING_BRANCH;
    assert INSTANCE_NAME == DASH + VARIABLES[0] && AUTOSCALING_ENDPOINT == DASH + VARIABLES[1];
    OtherSpelling();
  }

  lemma OtherSpelling()
    ensures AUTOSCALING_PROJECT == DASH + VARIABLES[2] && AUTOSCALING_BRANCH == DASH + VARIABLES[3]
  {
    hide INSTANCE_NAME, AUTOSCALING_ENDPOINT;
  }

  // ----- exactly which configurations the law holds for -----

  /** The value line of a block as it is read back, up to the first line break in the name. */
  function HeadOf(indent: string, c: Config): string {
    match c
    case Provisioned(name) => indent + (PROVISIONED_VALUE + SplitName(name)[0])
    case Autoscaling => indent + AUTOSCALING_VALUE
  }

  /** The lines of a name and its closing quote. */
  function SplitName(name: string): (lines: seq<string>)
    ensures lines != []
  {
    SplitLines(name + "\"")
  }

  /** The lines behind the value line that the line breaks of a name make. */
  function TailOf(c: Config): seq<string> {
    match c
    case Provisioned(name) => SplitName(name)[1..]
    case Autoscaling => []
  }

  /** Whether the line after `lines` is still taken for a value. */
  predicate SkipAfter(lines: seq<string>, skip: bool) {
    if lines == [] then skip
    else SkipAfter(lines[1..], !(skip && IsValue(lines[0])) && !IsSection(lines[0]) && IsManaged(lines[0]))
  }

  /** Nothing of the tail survives a scan, and the scan goes on behind it as if it were not there. */
  predicate TailVanishes(c: Config) {
    Keep(TailOf(c), false) == [] && !SkipAfter(TailOf(c), false)
  }

  lemma {:induction false} KeepConcat(a: seq<string>, b: seq<string>, skip: bool)
    ensures Keep(a + b, skip) == Keep(a, skip) + Keep(b, SkipAfter(a, skip))
  {
    hide IsValue, IsSection, IsManaged;
    if a == [] {
      assert a + b == b;
    } else {
      assert (a + b)[0] == a[0] && (a + b)[1..] == a[1..] + b;
      KeepConcat(a[1..], b, !(skip && IsValue(a[0])) && !IsSection(a[0]) && IsManaged(a[0]));
    }
  }

  /** The scan passes plain lines and marks the variable behind them. */
  lemma {:induction false} ScanToVariable(before: seq<string>, variable: string, rest: seq<string>)
    requires Plain(before) && IsManaged(variable) && !IsSection(variable)
    ensures Keep(before + [variable] + rest, false) == before + Keep(rest, true)
    ensures Mark(before + [variable] + rest, false) == Some(|before|)
  {
    hide IsValue, IsSection, IsManaged;
    var lines := before + [variable] + rest;
    if before == [] {
      assert lines[0] == variable && lines[1..] == rest;
    } else {
      assert before[0] in before && forall l :: l in before[1..] ==> l in before;
      ScanToVariable(before[1..], variable, rest);
      assert lines[0] == before[0] && lines[1..] == before[1..] + [variable] + rest;
      assert before + Keep(rest, true) == [before[0]] + (before[1..] + Keep(rest, true));
    }
  }

  /** How a block is read back between lines without breaks. */
  lemma BlockLines(before: seq<string>, after: seq<string>, indent: string, c: Config)
    requires (forall l :: l in before ==> BreakFree(l)) && (forall l :: l in after ==> BreakFree(l))
    requires BreakFree(indent)
    ensures SplitLines(Unlines(before + Block(indent, c) + after)) ==
            (before + [Block(indent, c)[0]]) + ([HeadOf(indent, c)] + TailOf(c)) + after
  {
    hide BreakFree, SplitLines, INSTANCE_NAME, PROVISIONED_VALUE, AUTOSCALING_VALUE, AUTOSCALING_ENDPOINT;
    BlockBreakFree(indent, indent);
    ValuesBreakFree();
    var block := Block(indent, c);
    assert before + block + after == (before + [block[0]]) + [block[1]] + after;
    match c
    case Provisioned(name) =>
      BreakFreeConcat(indent, PROVISIONED_VALUE);
      assert block[1] == (indent + PROVISIONED_VALUE) + (name + "\"");
      SplitPrefix(indent + PROVISIONED_VALUE, name + "\"");
      assert (indent + PROVISIONED_VALUE) + SplitName(name)[0] == HeadOf(indent, c);
      SplitAround(before + [block[0]], block[1], after);
    case Autoscaling =>
      AutoscalingEnd(indent);
      OneLineSplit(block[1]);
      SplitAround(before + [block[0]], block[1], after);
  }

  lemma AutoscalingEnd(indent: string)
    ensures
      var value := indent + AUTOSCALING_VALUE;
      value != "" && !IsBreak(value[|value| - 1])
  {
  }

  lemma OneLineSplit(line: string)
    requires line != "" && BreakFree(line)
    ensures SplitLines(line) == [line]
  {
    hide BreakFree;
    FirstBreakAfter(line, "");
    assert line + "" == line && line[..|line|] == line;
  }

  lemma HeadRecognised(indent: string, c: Config)
    requires Blank(indent)
    ensures |Block(indent, c)| == 2
    ensures
      var variable := Block(indent, c)[0];
      IsManaged(variable) && !IsSection(variable) && IsValue(HeadOf(indent, c))
  {
    hide IsManaged, IsSection, IsValue, INSTANCE_NAME, AUTOSCALING_ENDPOINT, SplitName;
    match c
    case Provisioned(name) =>
      ManagedVariable(indent, INSTANCE_NAME);
      ValueLine(indent, PROVISIONED_VALUE + SplitName(name)[0], "value");
    case Autoscaling =>
      ManagedVariable(indent, AUTOSCALING_ENDPOINT);
      ValueLine(indent, AUTOSCALING_VALUE, "value_from");
  }

  /** What a second scan keeps of a rewritten text, whatever the name. */
  lemma Rescan(content: string, c: Config)
    requires Mark(SplitLines(content), false).Some?
    ensures
      var lines := SplitLines(content);
      var kept, k := Keep(lines, false), Mark(lines, false).value;
      var again := SplitLines(Rewrite(content, c));
      && Mark(again, false) == Some(k)
      && Keep(again, false) ==
         kept[..k] + (Keep(TailOf(c), false) + Keep(kept[k..], SkipAfter(TailOf(c), false)))
  {
    hide IsManaged, IsSection, IsValue, Block, IndentOf, BreakFree, Blank, Indent, Unlines, SplitLines, HeadOf, TailOf;
    var lines := SplitLines(content);
    var kept, k := Keep(lines, false), Mark(lines, false).value;
    var indent := Indent(kept);
    KeepIsPlain(lines, false);
    IndentIsBlank(kept);
    BlockLines(kept[..k], kept[k..], indent, c);
    HeadRecognised(indent, c);
    var variable, head, rest := Block(indent, c)[0], HeadOf(indent, c), TailOf(c) + kept[k..];
    var again := SplitLines(Rewrite(content, c));
    assert again == kept[..k] + [variable] + ([head] + rest);
    ScanToVariable(kept[..k], variable, [head] + rest);
    assert ([head] + rest)[0] == head && ([head] + rest)[1..] == rest;
    KeepConcat(TailOf(c), kept[k..], false);
  }

  /** Rewriting for `first` leaves no trace once the text is rewritten again. */
  ghost predicate LeavesNoTrace(first: Config) {
    forall content, second :: Rewrite(Rewrite(content, first), second) == Rewrite(content, second)
  }

  /**
   * Last writer wins, for any text and any second configuration, exactly when the line breaks of the first
   * one's name leave nothing behind; a name without line breaks leaves nothing.
   */
  lemma LastWriterWinsExactly(first: Config)
    ensures LeavesNoTrace(first) <==> TailVanishes(first)
    ensures NamesFit(first) ==> TailVanishes(first)
  {
    hide Rewrite, TailOf, Keep, SkipAfter;
    if TailVanishes(first) {
      forall content, second ensures Rewrite(Rewrite(content, first), second) == Rewrite(content, second) {
        NoTrace(content, first, second);
      }
    } else if Keep(TailOf(first), false) != [] {
      var content := TailStays(first);
    } else {
      var content := NextValueLost(first);
    }
    if NamesFit(first) {
      FittingTail(first);
    }
  }

  lemma FittingTail(c: Config)
    requires NamesFit(c)
    ensures TailVanishes(c)
  {
    hide BreakFree;
    if c.Provisioned? {
      ValuesBreakFree();
      BreakFreeConcat(c.instanceName, "\"");
      OneLineSplit(c.instanceName + "\"");
    }
  }

  lemma NoTrace(content: string, first: Config, second: Config)
    requires TailVanishes(first)
    ensures Rewrite(Rewrite(content, first), second) == Rewrite(content, second)
  {
    hide SplitLines, Unlines, Block, Indent, TailOf, SkipAfter, Keep, Mark, IsSection, IsManaged;
    var lines := SplitLines(content);
    if Mark(lines, false).Some? {
      var kept, k := Keep(lines, false), Mark(lines, false).value;
      Rescan(content, first);
      KeepIsPlain(lines, false);
      PlainStays(kept[k..]);
      assert kept[..k] + ([] + kept[k..]) == kept;
    }
  }

  /** The lines of a small text with one managed variable. */
  lemma SmallText(values: seq<string>) returns (content: string)
    requires forall l :: l in values ==> BreakFree(l)
    ensures SplitLines(content) == [INSTANCE_NAME] + values
    ensures Keep(SplitLines(content), false) == Keep(values, true) && Mark(SplitLines(content), false) == Some(0)
  {
    hide BreakFree, INSTANCE_NAME, IsSection, IsManaged, IsValue, SplitLines;
    InstanceBreakFree();
    ManagedVariable("", INSTANCE_NAME);
    assert "" + INSTANCE_NAME == INSTANCE_NAME;
    var lines := [INSTANCE_NAME] + values;
    content := Unlines(lines);
    SplitUnlines(lines);
    assert [] + [INSTANCE_NAME] + values == lines;
    ScanToVariable([], INSTANCE_NAME, values);
    assert [] + Keep(values, true) == Keep(values, true);
  }

  /** A line of the name that is kept shows up in every later rewriting. */
  lemma TailStays(first: Config) returns (content: string)
    ensures Keep(TailOf(first), false) != [] ==>
              Rewrite(Rewrite(content, first), Autoscaling) != Rewrite(content, Autoscaling)
  {
    hide Rewrite, TailOf, SkipAfter, SplitLines;
    content := SmallText([]);
    Rescan(content, first);
    RewriteLength(content, Autoscaling);
    RewriteLength(Rewrite(content, first), Autoscaling);
  }

  /** A name that ends in a managed variable takes the value line behind the block with it. */
  lemma NextValueLost(first: Config) returns (content: string)
    ensures Keep(TailOf(first), false) == [] && SkipAfter(TailOf(first), false) ==>
              Rewrite(Rewrite(content, first), Autoscaling) != Rewrite(content, Autoscaling)
  {
    hide Rewrite, TailOf, SkipAfter, SplitLines, Keep;
    var value := "value:";
    LoneValue(value);
    content := SmallText([value, value]);
    Rescan(content, first);
    assert [value][0..] == [value] && [value][..0] == [];
    RewriteLength(content, Autoscaling);
    RewriteLength(Rewrite(content, first), Autoscaling);
  }

  lemma LoneValue(value: string)
    requires value == "value:"
    ensures BreakFree(value) && Keep([value], true) == [] && Keep([value, value], true) == [value]
  {
    ShortLine(value);
    hide IsValue, IsSection, IsManaged;
    assert [value][1..] == [] && [value, value][1..] == [value];
  }

  lemma {:induction false} ContainsLength(s: string, part: string)
    ensures Contains(s, part) ==> |part| <= |s|
  {
    if s != "" {
      ContainsLength(s[1..], part);
    }
  }

  lemma {:induction false} LowerLength(s: string)
    ensures |Lower(s)| == |s|
  {
    if s != "" {
      LowerLength(s[1..]);
    }
  }

  /** A short text without hash signs in front or blanks around is an ordinary line. */
  lemma ShortLine(s: string)
    requires 0 < |s| <= 20 && s[0] != '#' && !IsSpace(s[0]) && !IsSpace(s[|s| - 1])
    ensures !IsSection(s) && !IsManaged(s)
  {
    StripIndented("", s);
    assert "" + s == s && StripHashes(s) == s;
    LowerLength(s);
    assert forall t :: t in SECTIONS ==> |t| > 20;
    ContainsLength(s, INSTANCE_NAME);
    ContainsLength(s, AUTOSCALING_ENDPOINT);
    ContainsLength(s, AUTOSCALING_PROJECT);
    ContainsLength(s, AUTOSCALING_BRANCH);
  }

  /** A name on two lines leaves the second one behind, unless that line happens to be managed. */
  lemma BrokenName(a: string, b: string)
    requires BreakFree(a) && BreakFree(b) && !IsSection(b + "\"") && !IsManaged(b + "\"")
    ensures TailOf(Provisioned(a + "\n" + b)) == [b + "\""] && !LeavesNoTrace(Provisioned(a + "\n" + b))
  {
    ValuesBreakFree();
    hide BreakFree, IsSection, IsManaged, IsValue, LeavesNoTrace, SplitLines;
    var name, line := a + "\n" + b, b + "\"";
    BreakFreeConcat(b, "\"");
    assert name + "\"" == a + "\n" + line;
    FirstLine(a, line);
    OneLineSplit(line);
    assert TailOf(Provisioned(name)) == [line] && [line][1..] == [];
    LastWriterWinsExactly(Provisioned(name));
  }

  /** For example a name of two letters on two lines. */
  lemma TwoLineName()
    ensures !LeavesNoTrace(Provisioned("a" + "\n" + "b"))
  {
    hide IsSection, IsManaged, LeavesNoTrace;
    ShortLine("b" + "\"");
    BrokenName("a", "b");
  }

  /** A rewritten text has two lines more than were kept. */
  lemma RewriteLength(content: string, c: Config)
    requires NamesFit(c) && Mark(SplitLines(content), false).Some?
    ensures |SplitLines(Rewrite(content, c))| == |Keep(SplitLines(content), false)| + 2
  {
    hide SplitLines, Keep, Mark, Rewrite, Indent, IsManaged, IsSection, IsValue;
    RewrittenLines(content, c);
  }

  /** The mark is the first managed line. */
  lemma {:induction false} MarkIsFirst(lines: seq<string>, i: nat)
    requires i <= |lines| && (i > 0 ==> !ManagedAt(lines, i - 1))
    ensures match Mark(lines[i..], false)
      case None => forall j :: i <= j < |lines| ==> !ManagedAt(lines, j)
      case Some(m) =>
        && i + m < |lines| && ManagedAt(lines, i + m) && (forall j :: i <= j < i + m ==> !ManagedAt(lines, j))
        && Unmanaged(lines, i) == lines[i..i + m] + Unmanaged(lines, i + m)
    decreases |lines| - i
  {
    hide IsValue, IsSection, IsManaged, Keep, Mark;
    if i < |lines| {
      ScanStep(lines, i, false);
      assert !ValueAt(lines, i) by {
        if i > 0 {
          assert !VariableAt(lines, i - 1);
        }
      }
      if !IsSection(lines[i]) && !IsManaged(lines[i]) {
        MarkIsFirst(lines, i + 1);
        match Mark(lines[i..], false) {
          case None =>
          case Some(m) => assert lines[i..i + m] == [lines[i]] + lines[i + 1..i + m];
        }
      }
    } else {
      ScanEnd(lines, []);
    }
  }

  lemma BlockReads(indent: string, c: Config)
    requires Blank(indent)
    ensures |Block(indent, c)| == 2
    ensures Strip(Block(indent, c)[0]) == DASH + VariableOf(c) && Strip(Block(indent, c)[1]) == ValueOf(c)
  {
    hide BreakFree, Blank, DASH, VARIABLES;
    BlockVariable(indent, c);
    match c
    case Provisioned(name) => ProvisionedReads(indent, name);
    case Autoscaling => AutoscalingReads(indent);
  }

  lemma BlockVariable(indent: string, c: Config)
    requires Blank(indent)
    ensures Strip(Block(indent, c)[0]) == DASH + VariableOf(c)
  {
    Spelling();
    hide BreakFree, Blank, INSTANCE_NAME, AUTOSCALING_ENDPOINT, PROVISIONED_VALUE, AUTOSCALING_VALUE;
    match c
    case Provisioned(_) => StripIndented(indent, INSTANCE_NAME);
    case Autoscaling => StripIndented(indent, AUTOSCALING_ENDPOINT);
  }

  lemma ProvisionedReads(indent: string, name: string)
    requires Blank(indent)
    ensures Strip(Block(indent, Provisioned(name))[1]) == "value: \"" + name + "\""
  {
    hide BreakFree;
    var value := "value: \"" + name + "\"";
    assert value[0] == 'v' && value[|value| - 1] == '"';
    assert PROVISIONED_VALUE == "  " + "value: \"";
    assert indent + (PROVISIONED_VALUE + name + "\"") == (indent + "  ") + value;
    StripIndented(indent + "  ", value);
  }

  lemma AutoscalingReads(indent: string)
    requires Blank(indent)
    ensures Strip(Block(indent, Autoscaling)[1]) == "value_from: \"postgres\""
  {
    hide BreakFree;
    var value := "value_from: \"postgres\"";
    assert value[0] == 'v' && value[|value| - 1] == '"';
    assert AUTOSCALING_VALUE == "  " + value;
    assert indent + AUTOSCALING_VALUE == (indent + "  ") + value;
    StripIndented(indent + "  ", value);
  }

  /**
   * What a rewritten text says: one line sets the variable of the chosen configuration, the next line its
   * value, and no other line is a section comment or sets any of the four variables.
   */
  lemma ConfigurationStands(content: string, c: Config) returns (k: nat)
    requires NamesFit(c) && Mark(SplitLines(content), false).Some?
    ensures
      var lines := SplitLines(Rewrite(content, c));
      && k + 1 < |lines| && Strip(lines[k]) == DASH + VariableOf(c) && Strip(lines[k + 1]) == ValueOf(c)
      && forall j :: 0 <= j < |lines| && j != k && j != k + 1 ==>
           !IsSection(lines[j]) && forall v :: v in VARIABLES ==> !SetsVariable(lines[j], v)
  {
    hide IsManaged, IsSection, IsValue, Block, IndentOf, BreakFree, Blank, Indent, Unlines, SplitLines, Strip, DASH,
         SetsVariable;
    var before := SplitLines(content);
    var kept := Keep(before, false);
    k := Mark(before, false).value;
    KeepIsPlain(before, false);
    IndentIsBlank(kept);
    BlockReads(Indent(kept), c);
    RewrittenLines(content, c);
    var lines := SplitLines(Rewrite(content, c));
    forall j | 0 <= j < |lines| && j != k && j != k + 1
      ensures !IsSection(lines[j]) && forall v :: v in VARIABLES ==> !SetsVariable(lines[j], v)
    {
      assert lines[j] == if j < k then kept[j] else kept[j - 2];
      assert lines[j] in kept;
      ManagedExactly(lines[j]);
    }
  }

  /**
   * A text without managed lines is left alone; otherwise the lines before the first managed line stay,
   * the block follows, and after it every line that is not managed, in order.
   */
  lemma UnmanagedLinesStay(content: string, c: Config)
    requires NamesFit(c)
    ensures
      var lines := SplitLines(content);
      if forall i :: 0 <= i < |lines| ==> !ManagedAt(lines, i) then Rewrite(content, c) == content
      else
        exists i :: 0 <= i < |lines| && ManagedAt(lines, i) && (forall j :: 0 <= j < i ==> !ManagedAt(lines, j))
          && SplitLines(Rewrite(content, c)) ==
             lines[..i] + Block(Indent(Unmanaged(lines, 0)), c) + Unmanaged(lines, i)
  {
    hide ManagedAt, Block, Indent, SplitLines, Unlines, Keep, Mark;
    var lines := SplitLines(content);
    KeepUnmanaged(lines, 0);
    MarkIsFirst(lines, 0);
    assert lines[0..] == lines;
    match Mark(lines, false) {
      case None =>
      case Some(m) =>
        RewrittenLines(content, c);
        var kept := Unmanaged(lines, 0);
        assert kept[..m] == lines[..m] && kept[m..] == Unmanaged(lines, m);
    }
  }
}
