/** The cache of orchestrator instructions, keyed by signatures of the subagents they are built from. */
module InstructionCache {
  import opened Basics
  import opened Delegation
  import opened Subagents

  /** The fixed wording around the tool list. */
  datatype Wording = Wording(opening: string, closing: string, noTools: string)

  // ----- the builder -----

  function AuthText(a: AuthMode): string {
    match a case App => "app" case Obo => "obo"
  }

  function BoolText(b: bool): string {
    if b then "True" else "False"
  }

  function DatabaseText(a: SubagentConfig): string {
    match a.database case Some(d) => d case None => "None"
  }

  function PromptText(a: SubagentConfig): string {
    match a.systemPrompt case Some(p) => p case None => ""
  }

  function ToolName(a: SubagentConfig): string {
    "query_" + a.name.text
  }

  function Attributes(a: SubagentConfig): string {
    "auth=" + AuthText(a.authMode) + ", classification=" + a.dataClassification
    + ", evidence=" + BoolText(a.requiresEvidence)
  }

  function PromptLine(a: SubagentConfig): string {
    if PromptText(a) == "" then "" else "\n  System prompt: " + PromptText(a)
  }

  function ToolLine(a: SubagentConfig): string {
    (match a.kind
     case Genie => "- MCP tools (" + a.name.text + ", " + Attributes(a) + "): " + a.description
     case Mcp => "- MCP tools (" + a.name.text + ", " + Attributes(a) + "): " + a.description
     case Lakebase => LakebaseHead(a) + DatabaseText(a) + ("): " + a.description)
     case _ => "- " + ToolName(a) + " (" + Attributes(a) + "): " + a.description)
    + PromptLine(a)
  }

  function LakebaseHead(a: SubagentConfig): string {
    "- " + ToolName(a) + " (" + Attributes(a) + ", type=lakebase, database="
  }

  function JoinLines(lines: seq<string>): string {
    if lines == [] then "" else if |lines| == 1 then lines[0] else lines[0] + "\n" + JoinLines(lines[1..])
  }

  function ToolLines(agents: seq<SubagentConfig>): (r: seq<string>)
    ensures |r| == |agents| && forall i :: 0 <= i < |r| ==> r[i] == ToolLine(agents[i])
  {
    if agents == [] then [] else [ToolLine(agents[0])] + ToolLines(agents[1..])
  }

  function Instructions(w: Wording, agents: seq<SubagentConfig>): string {
    if agents == [] then w.noTools else w.opening + JoinLines(ToolLines(agents)) + w.closing
  }

  method BuildInstructions(w: Wording, agents: seq<SubagentConfig>) returns (text: string)
    ensures text == Instructions(w, agents)
  {
    hide ToolLine, JoinLines;
    var lines: seq<string> := [];
    for i := 0 to |agents|
      invariant lines == ToolLines(agents)[..i]
    {
      lines := lines + [ToolLine(agents[i])];
    }
    assert lines == ToolLines(agents);
    if lines != [] {
      return w.opening + JoinLines(lines) + w.closing;
    }
    text := w.noTools;
  }

  // ----- what the instructions say -----

  ghost predicate Mentions(text: string, part: string) {
    exists i :: MentionsAt(text, part, i)
  }

  predicate MentionsAt(text: string, part: string, i: int) {
    0 <= i <= |text| - |part| && text[i..i + |part|] == part
  }

  lemma MentionsPart(before: string, part: string, after: string)
    ensures Mentions(before + part + after, part)
  {
    assert MentionsAt(before + part + after, part, |before|);
  }

  lemma MentionsWithin(before: string, text: string, after: string, part: string)
    requires Mentions(text, part)
    ensures Mentions(before + text + after, part)
  {
    var i :| MentionsAt(text, part, i);
    assert MentionsAt(before + text + after, part, |before| + i);
  }

  /** The attributes name the authentication mode, the classification and whether evidence is required. */
  lemma AttributesMention(a: SubagentConfig)
    ensures Mentions(Attributes(a), AuthPart(a))
    ensures Mentions(Attributes(a), ", classification=" + a.dataClassification + ",")
    ensures Mentions(Attributes(a), EvidencePart(a))
  {
    AttributesRead(a);
    hide Mentions, Attributes, AuthPart, EvidencePart;
    var marking := ", classification=" + a.dataClassification;
    MentionsPart("", AuthPart(a), marking + EvidencePart(a));
    assert "" + AuthPart(a) + (marking + EvidencePart(a)) == AuthPart(a) + marking + EvidencePart(a);
    MentionsPart(AuthPart(a) + marking, EvidencePart(a), "");
    assert (AuthPart(a) + marking) + EvidencePart(a) + "" == AuthPart(a) + marking + EvidencePart(a);
    EvidenceComma(a);
    MentionsPart(AuthPart(a), marking + ",", EvidencePart(a)[1..]);
    assert AuthPart(a) + (marking + ",") + EvidencePart(a)[1..] == AuthPart(a) + marking + EvidencePart(a);
  }

  function AuthPart(a: SubagentConfig): string {
    if a.authMode.App? then "auth=app" else "auth=obo"
  }

  function EvidencePart(a: SubagentConfig): string {
    if a.requiresEvidence then ", evidence=True" else ", evidence=False"
  }

  lemma EvidenceComma(a: SubagentConfig)
    ensures EvidencePart(a) == "," + EvidencePart(a)[1..]
  {
  }

  lemma AttributesRead(a: SubagentConfig)
    ensures Attributes(a) == AuthPart(a) + (", classification=" + a.dataClassification) + EvidencePart(a)
  {
    assert AuthPart(a) == "auth=" + AuthText(a.authMode);
    assert EvidencePart(a) == ", evidence=" + BoolText(a.requiresEvidence);
  }

  /** What stands in front of the attributes: MCP tools are named as such, other tools by their own name. */
  function LineHead(a: SubagentConfig): string {
    if a.kind.Genie? || a.kind.Mcp? then "- MCP tools (" + a.name.text + ", " else "- query_" + a.name.text + " ("
  }

  /** What follows the attributes up to the system prompt: for a lakebase tool also its database. */
  function LineRest(a: SubagentConfig): string {
    if a.kind.Lakebase? then ", type=lakebase, database=" + DatabaseText(a) + "): " + a.description
    else "): " + a.description
  }

  /** A tool line is its head, the attributes, the rest and, unless that is empty, the system prompt. */
  lemma ToolLineReads(a: SubagentConfig)
    ensures ToolLine(a) == LineHead(a) + Attributes(a) + LineRest(a)
                           + if PromptText(a) == "" then "" else "\n  System prompt: " + PromptText(a)
  {
    hide Attributes;
    var head, rest := LineHead(a), LineRest(a);
    match a.kind
    case Lakebase =>
      assert ToolName(a) == "query_" + a.name.text;
      assert LakebaseHead(a) + DatabaseText(a) + ("): " + a.description) == head + Attributes(a) + rest;
    case Genie =>
      assert "- MCP tools (" + a.name.text + ", " + Attributes(a) + "): " + a.description
          == head + Attributes(a) + rest;
    case Mcp =>
      assert "- MCP tools (" + a.name.text + ", " + Attributes(a) + "): " + a.description
          == head + Attributes(a) + rest;
    case _ =>
      assert "- " + ToolName(a) + " (" + Attributes(a) + "): " + a.description == head + Attributes(a) + rest;
  }

  lemma {:induction false} JoinedLineMentioned(lines: seq<string>, i: nat)
    requires i < |lines|
    ensures Mentions(JoinLines(lines), lines[i])
  {
    hide Mentions;
    if |lines| == 1 {
      MentionsPart("", lines[0], "");
      assert "" + lines[0] + "" == lines[0];
    } else if i == 0 {
      MentionsPart("", lines[0], "\n" + JoinLines(lines[1..]));
      assert "" + lines[0] + ("\n" + JoinLines(lines[1..])) == JoinLines(lines);
    } else {
      JoinedLineMentioned(lines[1..], i - 1);
      MentionsWithin(lines[0] + "\n", JoinLines(lines[1..]), "", lines[i]);
      assert lines[0] + "\n" + JoinLines(lines[1..]) + "" == JoinLines(lines);
    }
  }

  /** The instructions carry the line of every tool, and with it the tool's attributes as configured. */
  lemma InstructionsMention(w: Wording, agents: seq<SubagentConfig>, i: nat)
    requires i < |agents|
    ensures
      var a, text := agents[i], Instructions(w, agents);
      && Mentions(text, ToolLine(a))
      && Mentions(text, AuthPart(a))
      && Mentions(text, ", classification=" + a.dataClassification + ",")
      && Mentions(text, EvidencePart(a))
      && (a.kind.Lakebase? ==> Mentions(text, LineRest(a)))
  {
    hide Mentions, Attributes, AuthPart, EvidencePart, ToolLine, LineHead, LineRest, PromptText;
    var a, line := agents[i], ToolLine(agents[i]);
    var lines := ToolLines(agents);
    JoinedLineMentioned(lines, i);
    MentionsWithin(w.opening, JoinLines(lines), w.closing, line);
    var text := Instructions(w, agents);
    ToolLineReads(a);
    AttributesMention(a);
    var prompt := if PromptText(a) == "" then "" else "\n  System prompt: " + PromptText(a);
    assert line == LineHead(a) + Attributes(a) + (LineRest(a) + prompt);
    assert line == (LineHead(a) + Attributes(a)) + LineRest(a) + prompt;
    MentionsPart(LineHead(a) + Attributes(a), LineRest(a), prompt);
    MentionedTwice(w, agents, i, LineRest(a));
    var parts := [AuthPart(a), ", classification=" + a.dataClassification + ",", EvidencePart(a)];
    forall k | 0 <= k < 3 ensures Mentions(text, parts[k]) {
      MentionsWithin(LineHead(a), Attributes(a), LineRest(a) + prompt, parts[k]);
      MentionedTwice(w, agents, i, parts[k]);
    }
    assert Mentions(text, parts[0]) && Mentions(text, parts[1]) && Mentions(text, parts[2]);
  }

  lemma MentionedTwice(w: Wording, agents: seq<SubagentConfig>, i: nat, part: string)
    requires i < |agents| && Mentions(ToolLine(agents[i]), part)
    ensures Mentions(Instructions(w, agents), part)
  {
    hide ToolLine, JoinLines;
    var lines := ToolLines(agents);
    JoinedLineMentioned(lines, i);
    var text := JoinLines(lines);
    var k :| MentionsAt(text, lines[i], k);
    assert text == text[..k] + lines[i] + text[k + |lines[i]|..];
    MentionsWithin(text[..k], lines[i], text[k + |lines[i]|..], part);
    MentionsWithin(w.opening, text, w.closing, part);
  }

  // ----- signatures -----

  datatype Signature = Signature(
    name: Name,
    kind: Kind,
    authMode: AuthMode,
    dataClassification: string,
    requiresEvidence: bool,
    description: string,
    prompt: string,
    toolName: string,
    isGenie: bool,
    isMcp: bool)

  function SignatureOf(a: SubagentConfig): Signature {
    Signature(a.name, a.kind, a.authMode, a.dataClassification, a.requiresEvidence, a.description, PromptText(a),
              ToolName(a), a.kind.Genie?, a.kind.Mcp?)
  }

  function KeyOf(agents: seq<SubagentConfig>): (r: seq<Signature>)
    ensures |r| == |agents| && forall i :: 0 <= i < |r| ==> r[i] == SignatureOf(agents[i])
  {
    if agents == [] then [] else [SignatureOf(agents[0])] + KeyOf(agents[1..])
  }

  /** The signature leaves out one input of the builder: the database of a lakebase agent. */
  lemma LineFromSignature(a: SubagentConfig, b: SubagentConfig)
    requires SignatureOf(a) == SignatureOf(b)
    requires a.kind.Lakebase? ==> DatabaseText(a) == DatabaseText(b)
    ensures ToolLine(a) == ToolLine(b)
  {
  }

  /** Among the configurations in use, equal signatures mean equal databases. */
  ghost predicate Coherent(inUse: set<SubagentConfig>) {
    forall a, b :: a in inUse && b in inUse && SignatureOf(a) == SignatureOf(b) && a.kind.Lakebase? ==>
      DatabaseText(a) == DatabaseText(b)
  }

  ghost predicate InUse(agents: seq<SubagentConfig>, inUse: set<SubagentConfig>) {
    forall i :: 0 <= i < |agents| ==> agents[i] in inUse
  }

  lemma KeyDeterminesInstructions(
      w: Wording, inUse: set<SubagentConfig>, a: seq<SubagentConfig>, b: seq<SubagentConfig>)
    requires Coherent(inUse) && InUse(a, inUse) && InUse(b, inUse) && KeyOf(a) == KeyOf(b)
    ensures Instructions(w, a) == Instructions(w, b)
  {
    hide SignatureOf, ToolLine, DatabaseText;
    forall i | 0 <= i < |a| ensures ToolLine(a[i]) == ToolLine(b[i]) {
      assert KeyOf(a)[i] == KeyOf(b)[i];
      LineFromSignature(a[i], b[i]);
    }
    assert ToolLines(a) == ToolLines(b);
  }

  // ----- the cache -----

  type Cache = map<seq<Signature>, string>

  /** A full cache is emptied before the new entry goes in. */
  function Insert(cache: Cache, size: int, key: seq<Signature>, text: string): Cache {
    if |cache| >= Max(size, 1) then map[key := text] else cache[key := text]
  }

  function Lookup(cache: Cache, key: seq<Signature>): Option<string> {
    if key in cache then Some(cache[key]) else None
  }

  class InstructionsCache {
    const wording: Wording
    const size: int
    var cache: Cache

    constructor (wording: Wording, size: int)
      ensures this.wording == wording && this.size == size && cache == map[]
    {
      this.wording, this.size, cache := wording, size, map[];
    }

    method BaseInstructions(agents: seq<SubagentConfig>) returns (text: string)
      modifies this
      ensures match Lookup(old(cache), KeyOf(agents))
              case Some(cached) => text == cached && cache == old(cache)
              case None =>
                text == Instructions(wording, agents) && cache == Insert(old(cache), size, KeyOf(agents), text)
    {
      var key := KeyOf(agents);
      if key in cache {
        return cache[key];
      }
      text := BuildInstructions(wording, agents);
      if |cache| >= Max(size, 1) {
        cache := map[];
      }
      cache := cache[key := text];
    }
  }

  // ----- runs: lookups and insertions of any threads, interleaved -----

  /** The lock is released while a text is built, so the two halves of a call are separate steps. */
  datatype Move = Look(agents: seq<SubagentConfig>) | Store(agents: seq<SubagentConfig>)

  function Next(w: Wording, size: int, cache: Cache, m: Move): Cache {
    match m
    case Look(_) => cache
    case Store(agents) => Insert(cache, size, KeyOf(agents), Instructions(w, agents))
  }

  function Run(w: Wording, size: int, cache: Cache, moves: seq<Move>): Cache
    decreases |moves|
  {
    if moves == [] then cache else Run(w, size, Next(w, size, cache, moves[0]), moves[1..])
  }

  /** Every entry is what the builder would produce now, for whichever agents in use have its key. */
  ghost predicate UpToDate(w: Wording, cache: Cache, inUse: set<SubagentConfig>) {
    forall agents :: InUse(agents, inUse) && KeyOf(agents) in cache ==> cache[KeyOf(agents)] == Instructions(w, agents)
  }

  ghost predicate MovesInUse(moves: seq<Move>, inUse: set<SubagentConfig>) {
    forall m :: m in moves ==> InUse(m.agents, inUse)
  }

  lemma NextUpToDate(w: Wording, size: int, cache: Cache, m: Move, inUse: set<SubagentConfig>)
    requires Coherent(inUse) && UpToDate(w, cache, inUse) && InUse(m.agents, inUse) && |cache| <= Max(size, 1)
    ensures UpToDate(w, Next(w, size, cache, m), inUse)
    ensures |Next(w, size, cache, m)| <= Max(size, 1)
  {
    hide KeyOf, Instructions, Coherent;
    var next := Next(w, size, cache, m);
    forall agents | InUse(agents, inUse) && KeyOf(agents) in next
      ensures next[KeyOf(agents)] == Instructions(w, agents)
    {
      if m.Store? && KeyOf(agents) == KeyOf(m.agents) {
        KeyDeterminesInstructions(w, inUse, agents, m.agents);
      }
    }
  }

  lemma {:induction false} RunUpToDate(
      w: Wording, size: int, cache: Cache, moves: seq<Move>, inUse: set<SubagentConfig>)
    requires Coherent(inUse) && UpToDate(w, cache, inUse) && MovesInUse(moves, inUse) && |cache| <= Max(size, 1)
    ensures UpToDate(w, Run(w, size, cache, moves), inUse)
    ensures |Run(w, size, cache, moves)| <= Max(size, 1)
    decreases |moves|
  {
    hide Coherent, UpToDate, Next;
    if moves != [] {
      assert moves[0] in moves;
      NextUpToDate(w, size, cache, moves[0], inUse);
      RunUpToDate(w, size, Next(w, size, cache, moves[0]), moves[1..], inUse);
    }
  }

  /**
   * After any interleaving of hits, misses, late insertions and whole-cache clears, a hit returns exactly
   * what the builder would produce now, and the cache holds at most max(size, 1) entries; provided
   * equal signatures mean equal databases among the configurations in use.
   */
  lemma CacheAgreesWithBuilder(
      w: Wording, size: int, moves: seq<Move>, inUse: set<SubagentConfig>, agents: seq<SubagentConfig>)
    requires Coherent(inUse) && MovesInUse(moves, inUse) && InUse(agents, inUse)
    ensures
      var cache := Run(w, size, map[], moves);
      && |cache| <= Max(size, 1)
      && (Lookup(cache, KeyOf(agents)).Some? ==> Lookup(cache, KeyOf(agents)).value == Instructions(w, agents))
  {
    RunUpToDate(w, size, map[], moves, inUse);
  }

  lemma SameEnds(head: string, x: string, y: string, tail: string)
    ensures head + x + tail == head + y + tail <==> x == y
  {
    if head + x + tail == head + y + tail {
      var s, t := head + x + tail, head + y + tail;
      assert |x| == |y|;
      assert x == s[|head|..|head| + |x|] && y == t[|head|..|head| + |y|];
    }
  }

  /**
   * Of two lakebase agents with one signature, the second gets the first one's cached instructions,
   * which are right exactly when the databases are equal.
   */
  lemma StaleExactlyWhenDatabasesDiffer(w: Wording, size: int, a: SubagentConfig, b: SubagentConfig)
    requires a.kind.Lakebase? && SignatureOf(a) == SignatureOf(b)
    ensures
      var cache := Next(w, size, map[], Store([a]));
      && Lookup(cache, KeyOf([b])).Some?
      && (Lookup(cache, KeyOf([b])).value == Instructions(w, [b]) <==> DatabaseText(a) == DatabaseText(b))
  {
    assert KeyOf([a]) == KeyOf([b]);
    assert LakebaseHead(a) == LakebaseHead(b) && PromptLine(a) == PromptLine(b);
    OneToolText(w, a);
    OneToolText(w, b);
    var head, tail := w.opening + LakebaseHead(a), ("): " + a.description) + PromptLine(a) + w.closing;
    SameEnds(head, DatabaseText(a), DatabaseText(b), tail);
  }

  /** Every hit of every run returns what the builder would produce now. */
  ghost predicate AlwaysRight(w: Wording, size: int, inUse: set<SubagentConfig>) {
    forall moves, agents :: MovesInUse(moves, inUse) && InUse(agents, inUse) ==>
      var hit := Lookup(Run(w, size, map[], moves), KeyOf(agents));
      hit.Some? ==> hit.value == Instructions(w, agents)
  }

  /** The cache is right on every run exactly when equal signatures mean equal databases. */
  lemma RightExactlyWhenCoherent(w: Wording, size: int, inUse: set<SubagentConfig>)
    ensures AlwaysRight(w, size, inUse) <==> Coherent(inUse)
  {
    if Coherent(inUse) {
      forall moves, agents | MovesInUse(moves, inUse) && InUse(agents, inUse)
        ensures
          var hit := Lookup(Run(w, size, map[], moves), KeyOf(agents));
          hit.Some? ==> hit.value == Instructions(w, agents)
      {
        CacheAgreesWithBuilder(w, size, moves, inUse, agents);
      }
    } else {
      var a, b :| a in inUse && b in inUse && SignatureOf(a) == SignatureOf(b) && a.kind.Lakebase?
                  && DatabaseText(a) != DatabaseText(b);
      StaleExactlyWhenDatabasesDiffer(w, size, a, b);
      var moves := [Store([a])];
      assert moves[1..] == [];
      assert Run(w, size, map[], moves) == Next(w, size, map[], moves[0]);
      assert MovesInUse(moves, inUse) && InUse([b], inUse);
    }
  }

  lemma OneToolText(w: Wording, a: SubagentConfig)
    requires a.kind.Lakebase?
    ensures Instructions(w, [a]) ==
            (w.opening + LakebaseHead(a)) + DatabaseText(a) + (("): " + a.description) + PromptLine(a) + w.closing)
  {
    hide LakebaseHead, DatabaseText, PromptLine;
    assert JoinLines(ToolLines([a])) == ToolLine(a);
  }
}
