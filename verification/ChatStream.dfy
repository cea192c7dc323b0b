/**
 * The chat stream: the server prints each event as one `data:` line and a blank line (a subset of
 * section 9.2, Server-sent events, of the WHATWG HTML Living Standard); the client receives the text
 * in arbitrary chunks, cuts it into lines with a carry-over buffer, and collects events and text.
 */
module ChatStream {
  import opened Basics

  /** JSON and event inspection, as functions: `key` is what duplicates are told by, `delta` the visible text. */
  datatype Codec<!E> = Codec(encode: E -> string, decode: string -> Option<E>, key: E -> string, delta: E -> string)

  predicate IsSpace(ch: char) {
    || ch == ' ' || ch == '\t' || ch == '\n' || ch == '\r' || ch == '\U{000B}' || ch == '\U{000C}'
    || ch == '\U{00A0}' || ch == '\U{1680}' || '\U{2000}' <= ch <= '\U{200A}' || ch == '\U{2028}' || ch == '\U{2029}'
    || ch == '\U{202F}' || ch == '\U{205F}' || ch == '\U{3000}' || ch == '\U{FEFF}'
  }

  function TrimStart(s: string): string {
    if s != "" && IsSpace(s[0]) then TrimStart(s[1..]) else s
  }

  function TrimEnd(s: string): string {
    if s != "" && IsSpace(s[|s| - 1]) then TrimEnd(s[..|s| - 1]) else s
  }

  function Trim(s: string): string {
    TrimEnd(TrimStart(s))
  }

  const DONE := "[DONE]"

  /** JSON text is one line, has no blank ends, is not the end marker, and can be read back. */
  ghost predicate Invertible<E(!new)>(c: Codec<E>) {
    forall e :: Printable(c, e)
  }

  ghost predicate Printable<E>(c: Codec<E>, e: E) {
    var json := c.encode(e);
    && '\n' !in json && json != "" && !IsSpace(json[0]) && !IsSpace(json[|json| - 1])
    && json != DONE && c.decode(json) == Some(e)
  }

  // ----- the printer -----

  function Sse<E>(c: Codec<E>, e: E): string {
    "data: " + c.encode(e) + "\n\n"
  }

  function Print<E>(c: Codec<E>, events: seq<E>): string {
    if events == [] then "" else Sse(c, events[0]) + Print(c, events[1..])
  }

  function Join(chunks: seq<string>): string {
    if chunks == [] then "" else chunks[0] + Join(chunks[1..])
  }

  // ----- lines -----

  /** Puts a character in front of the first piece. */
  function Glue(ch: char, ps: seq<string>): (r: seq<string>)
    requires ps != []
    ensures |r| == |ps|
  {
    [[ch] + ps[0]] + ps[1..]
  }

  /** The text cut at every line feed; there is always a last piece, possibly empty. */
  function Pieces(s: string): (ps: seq<string>)
    ensures ps != []
  {
    if s == "" then [""]
    else if s[0] == '\n' then [""] + Pieces(s[1..])
    else Glue(s[0], Pieces(s[1..]))
  }

  function Lines(s: string): seq<string> {
    Pieces(s)[..|Pieces(s)| - 1]
  }

  function Rest(s: string): string {
    Pieces(s)[|Pieces(s)| - 1]
  }

  lemma GlueConcat(ch: char, ps: seq<string>, qs: seq<string>)
    requires ps != []
    ensures Glue(ch, ps + qs) == Glue(ch, ps) + qs
  {
    assert (ps + qs)[1..] == ps[1..] + qs;
  }

  lemma PiecesCons(ch: char, s: string)
    ensures Pieces([ch] + s) == if ch == '\n' then [""] + Pieces(s) else Glue(ch, Pieces(s))
    ensures Rest([ch] + s) == if ch == '\n' || |Pieces(s)| > 1 then Rest(s) else [ch] + Rest(s)
    ensures Lines([ch] + s) ==
            if ch == '\n' then [""] + Lines(s) else if |Pieces(s)| > 1 then Glue(ch, Lines(s)) else []
  {
    PiecesFirst(ch, s);
    hide Pieces;
    var ps, n := Pieces(s), |Pieces(s)| - 1;
    if ch == '\n' {
      assert ([""] + ps)[..n + 1] == [""] + ps[..n];
    } else if n > 0 {
      assert Glue(ch, ps)[..n] == Glue(ch, ps[..n]);
    }
  }

  lemma PiecesFirst(ch: char, s: string)
    ensures Pieces([ch] + s) == if ch == '\n' then [""] + Pieces(s) else Glue(ch, Pieces(s))
  {
    assert ([ch] + s)[1..] == s;
  }

  lemma LinesCount(s: string)
    ensures |Lines(s)| == |Pieces(s)| - 1
  {
  }

  lemma PiecesConcatStep(ch: char, s: string, b: string)
    requires Pieces(s + b) == Lines(s) + Pieces(Rest(s) + b)
    ensures Pieces([ch] + (s + b)) == Lines([ch] + s) + Pieces(Rest([ch] + s) + b)
  {
    hide Pieces, Lines, Rest, Glue;
    PiecesCons(ch, s);
    PiecesCons(ch, s + b);
    LinesCount(s);
    if ch == '\n' {
      assert [""] + (Lines(s) + Pieces(Rest(s) + b)) == ([""] + Lines(s)) + Pieces(Rest(s) + b);
    } else if |Pieces(s)| > 1 {
      GlueConcat(ch, Lines(s), Pieces(Rest(s) + b));
    } else {
      assert Lines(s) + Pieces(Rest(s) + b) == Pieces(Rest(s) + b);
      PiecesCons(ch, Rest(s) + b);
      assert ([ch] + Rest(s)) + b == [ch] + (Rest(s) + b);
      assert [] + Pieces(([ch] + Rest(s)) + b) == Pieces(([ch] + Rest(s)) + b);
    }
  }

  /** Cutting a text in two steps, carrying the unfinished line over, gives the lines of the whole. */
  lemma {:induction false} PiecesConcat(a: string, b: string)
    ensures Pieces(a + b) == Lines(a) + Pieces(Rest(a) + b)
  {
    hide Glue;
    if a == "" {
      assert a + b == b && Rest(a) + b == b;
    } else {
      var ch, s := a[0], a[1..];
      PiecesConcat(s, b);
      PiecesConcatStep(ch, s, b);
      assert a == [ch] + s && a + b == [ch] + (s + b);
    }
  }

  lemma LinesConcat(a: string, b: string)
    ensures Lines(a + b) == Lines(a) + Lines(Rest(a) + b)
    ensures Rest(a + b) == Rest(Rest(a) + b)
  {
    PiecesConcat(a, b);
  }

  lemma {:induction false} OneLine(s: string, rest: string)
    requires '\n' !in s
    ensures Pieces(s + "\n" + rest) == [s] + Pieces(rest)
    ensures Lines(s) == [] && Rest(s) == s
  {
    if s == "" {
      assert (s + "\n" + rest)[1..] == rest;
    } else {
      var ch, t := s[0], s[1..];
      assert ch in s && forall x :: x in t ==> x in s;
      OneLine(t, rest);
      assert s == [ch] + t && s + "\n" + rest == [ch] + (t + "\n" + rest);
      PiecesCons(ch, t);
      PiecesCons(ch, t + "\n" + rest);
      GlueConcat(ch, [t], Pieces(rest));
    }
  }

  /** A line feed ends the carried line; any other character extends it. */
  lemma OneCharacter(buffer: string, ch: char)
    requires '\n' !in buffer
    ensures Lines(buffer + [ch]) == if ch == '\n' then [buffer] else []
    ensures Rest(buffer + [ch]) == if ch == '\n' then "" else buffer + [ch]
  {
    if ch == '\n' {
      OneLine(buffer, "");
      assert buffer + [ch] == buffer + "\n" + "";
    } else {
      OneLine(buffer + [ch], "");
    }
  }

  // ----- what one line says -----

  datatype LineKind<E> = Done | Decoded(event: E) | Ignored

  function Read<E>(c: Codec<E>, rawLine: string): LineKind<E> {
    var line := Trim(rawLine);
    if !("data: " <= line) then Ignored
    else
      var data := Trim(line[6..]);
      if data == DONE then Done
      else match c.decode(data)
        case None => Ignored
        case Some(e) => Decoded(e)
  }

  function EventsOf<E>(k: LineKind<E>): seq<E> {
    match k
    case Decoded(e) => [e]
    case _ => []
  }

  /** The events of some lines, up to the end marker: the marker leaves the line loop. */
  function UpToDone<E>(c: Codec<E>, lines: seq<string>): seq<E> {
    if lines == [] || Read(c, lines[0]).Done? then []
    else EventsOf(Read(c, lines[0])) + UpToDone(c, lines[1..])
  }

  /** All events of some lines, marker or not. */
  function AllEvents<E>(c: Codec<E>, lines: seq<string>): seq<E> {
    if lines == [] then [] else EventsOf(Read(c, lines[0])) + AllEvents(c, lines[1..])
  }

  /** The events a client decodes from `chunks` when `buffer` holds an unfinished line. */
  function DecodedFrom<E>(c: Codec<E>, buffer: string, chunks: seq<string>): seq<E>
    decreases |chunks|
  {
    if chunks == [] then []
    else
      UpToDone(c, Lines(buffer + chunks[0])) + DecodedFrom(c, Rest(buffer + chunks[0]), chunks[1..])
  }

  // ----- round trip -----

  lemma ReadPrinted<E>(c: Codec<E>, e: E)
    requires Printable(c, e)
    ensures Read(c, "data: " + c.encode(e)) == Decoded(e)
  {
    var json := c.encode(e);
    var line := "data: " + json;
    assert line[0] == 'd' && line[|line| - 1] == json[|json| - 1];
    assert line[6..] == json;
  }

  lemma ReadBlank<E>(c: Codec<E>)
    ensures Read(c, "").Ignored?
  {
  }

  lemma {:induction false} PrintedLines<E(!new)>(c: Codec<E>, events: seq<E>)
    requires Invertible(c)
    ensures UpToDone(c, Lines(Print(c, events))) == AllEvents(c, Lines(Print(c, events))) == events
  {
    hide Pieces, Lines, Read, Sse, Printable;
    if events == [] {
      NoLines();
    } else {
      var e, rest := events[0], Print(c, events[1..]);
      PrintedLines(c, events[1..]);
      assert Printable(c, e);
      ReadPrinted(c, e);
      ReadBlank(c);
      SseLines(c, e, rest);
      EventThenBlank(c, "data: " + c.encode(e), e, Lines(rest));
      assert [e] + events[1..] == events;
    }
  }

  lemma EventThenBlank<E>(c: Codec<E>, line: string, e: E, lines: seq<string>)
    requires Read(c, line) == Decoded(e) && Read(c, "").Ignored?
    ensures UpToDone(c, [line, ""] + lines) == [e] + UpToDone(c, lines)
    ensures AllEvents(c, [line, ""] + lines) == [e] + AllEvents(c, lines)
  {
    hide Read;
    var all := [line, ""] + lines;
    assert all[1..] == [""] + lines && all[1..][1..] == lines;
    assert [] + UpToDone(c, lines) == UpToDone(c, lines) && [] + AllEvents(c, lines) == AllEvents(c, lines);
  }

  lemma NoLines()
    ensures Lines("") == []
  {
  }

  /** One printed event is a line with its JSON and a blank line. */
  lemma SseLines<E>(c: Codec<E>, e: E, rest: string)
    requires Printable(c, e)
    ensures Lines(Sse(c, e) + rest) == ["data: " + c.encode(e), ""] + Lines(rest)
  {
    var line := "data: " + c.encode(e);
    assert Sse(c, e) + rest == line + "\n" + ("" + "\n" + rest);
    OneLine(line, "" + "\n" + rest);
    OneLine("", rest);
    assert Pieces(Sse(c, e) + rest) == [line] + ([""] + Pieces(rest));
  }

  // ----- blanks around lines and data -----

  predicate Blanks(s: string) {
    forall ch :: ch in s ==> IsSpace(ch)
  }

  lemma {:induction false} TrimStartBlanks(lead: string, s: string)
    requires Blanks(lead)
    ensures TrimStart(lead + s) == TrimStart(s)
  {
    if lead == "" {
      assert lead + s == s;
    } else {
      assert lead[0] in lead && forall ch :: ch in lead[1..] ==> ch in lead;
      assert (lead + s)[1..] == lead[1..] + s;
      TrimStartBlanks(lead[1..], s);
    }
  }

  lemma {:induction false} TrimEndBlanks(s: string, trail: string)
    requires Blanks(trail)
    ensures TrimEnd(s + trail) == TrimEnd(s)
  {
    if trail == "" {
      assert s + trail == s;
    } else {
      var n := |trail| - 1;
      assert trail[n] in trail && forall ch :: ch in trail[..n] ==> ch in trail;
      assert (s + trail)[..|s + trail| - 1] == s + trail[..n];
      TrimEndBlanks(s, trail[..n]);
    }
  }

  /** Blanks around a text that does not begin or end with one are trimmed off. */
  lemma TrimBlanks(lead: string, s: string, trail: string)
    requires Blanks(lead) && Blanks(trail) && s != "" && !IsSpace(s[0]) && !IsSpace(s[|s| - 1])
    ensures Trim(lead + s + trail) == s
  {
    hide IsSpace;
    assert lead + s + trail == lead + (s + trail);
    TrimStartBlanks(lead, s + trail);
    assert (s + trail)[0] == s[0];
    TrimEndBlanks(s, trail);
    assert TrimEnd(s) == s;
  }

  /**
   * Blanks around a data line, such as the carriage return of a CRLF line end, and extra blanks behind its
   * prefix do not change the event it carries.
   */
  lemma BlanksDoNotMatter<E>(c: Codec<E>, e: E, lead: string, pad: string, trail: string)
    requires Printable(c, e) && Blanks(lead) && Blanks(pad) && Blanks(trail)
    ensures Read(c, lead + ("data: " + pad + c.encode(e)) + trail) == Decoded(e)
  {
    hide Blanks;
    var json := c.encode(e);
    var line := "data: " + pad + json;
    assert line[0] == 'd' && line[|line| - 1] == json[|json| - 1];
    TrimBlanks(lead, line, trail);
    NoBlanks();
    TrimBlanks(pad, json, "");
    assert line[6..] == pad + json && pad + json + "" == pad + json;
  }

  /** In particular a stream with CRLF line ends reads the same. */
  lemma CarriageReturnIsBlank<E>(c: Codec<E>, e: E)
    requires Printable(c, e)
    ensures Read(c, "data: " + c.encode(e) + "\r") == Decoded(e)
  {
    NoBlanks();
    BlanksDoNotMatter(c, e, "", "", "\r");
    assert "" + ("data: " + "" + c.encode(e)) + "\r" == "data: " + c.encode(e) + "\r";
  }

  lemma NoBlanks()
    ensures Blanks("")
  {
  }

  // ----- independence of the chunking -----

  lemma {:induction false} AllEventsConcat<E>(c: Codec<E>, a: seq<string>, b: seq<string>)
    ensures AllEvents(c, a + b) == AllEvents(c, a) + AllEvents(c, b)
  {
    hide Read;
    if a == [] {
      assert a + b == b;
    } else {
      AllEventsConcat(c, a[1..], b);
      assert (a + b)[1..] == a[1..] + b;
    }
  }

  /** Either the marker is in the first part, or the whole first part counts. */
  lemma {:induction false} UpToDoneConcat<E>(c: Codec<E>, a: seq<string>, b: seq<string>)
    ensures || UpToDone(c, a + b) == UpToDone(c, a)
            || (UpToDone(c, a) == AllEvents(c, a) && UpToDone(c, a + b) == AllEvents(c, a) + UpToDone(c, b))
    ensures |UpToDone(c, a)| <= |AllEvents(c, a)|
    ensures |UpToDone(c, a)| == |AllEvents(c, a)| ==> UpToDone(c, a) == AllEvents(c, a)
  {
    hide Read, EventsOf;
    if a == [] {
      assert a + b == b;
    } else {
      var rest, head := a[1..], EventsOf(Read(c, a[0]));
      UpToDoneConcat(c, rest, b);
      assert (a + b)[0] == a[0] && (a + b)[1..] == rest + b;
      assert head + (AllEvents(c, rest) + UpToDone(c, b)) == (head + AllEvents(c, rest)) + UpToDone(c, b);
    }
  }

  /** No line that carries an event comes after a line with the end marker. */
  predicate NothingAfterDone<E>(c: Codec<E>, lines: seq<string>) {
    forall i, j :: 0 <= i < j < |lines| ==> !(Read(c, lines[i]).Done? && Read(c, lines[j]).Decoded?)
  }

  lemma {:induction false} NoEventsExactly<E>(c: Codec<E>, lines: seq<string>)
    ensures AllEvents(c, lines) == [] <==> forall j :: 0 <= j < |lines| ==> !Read(c, lines[j]).Decoded?
  {
    hide Read;
    if lines != [] {
      NoEventsExactly(c, lines[1..]);
      assert forall j :: 1 <= j < |lines| ==> lines[j] == lines[1..][j - 1];
    }
  }

  /** The marker cuts an event off exactly when an event line follows a marker line. */
  lemma {:induction false} CutOffExactly<E>(c: Codec<E>, lines: seq<string>)
    ensures UpToDone(c, lines) == AllEvents(c, lines) <==> NothingAfterDone(c, lines)
  {
    hide Read, NothingAfterDone;
    if lines != [] {
      var rest := lines[1..];
      assert forall j :: 1 <= j < |lines| ==> lines[j] == rest[j - 1];
      NoEventsExactly(c, rest);
      CutOffExactly(c, rest);
      LaterPairs(c, lines);
      if Read(c, lines[0]).Done? {
        assert [] + AllEvents(c, rest) == AllEvents(c, rest);
      } else {
        SameTail(EventsOf(Read(c, lines[0])), UpToDone(c, rest), AllEvents(c, rest));
      }
    } else {
      NoPairs(c);
    }
  }

  lemma NoPairs<E>(c: Codec<E>)
    ensures NothingAfterDone(c, [])
  {
  }

  lemma SameTail<T>(head: seq<T>, a: seq<T>, b: seq<T>)
    ensures head + a == head + b <==> a == b
  {
    assert a == (head + a)[|head|..] && b == (head + b)[|head|..];
  }

  lemma LaterPairs<E>(c: Codec<E>, lines: seq<string>)
    requires lines != []
    ensures NothingAfterDone(c, lines) <==>
            && NothingAfterDone(c, lines[1..])
            && (Read(c, lines[0]).Done? ==> forall j :: 1 <= j < |lines| ==> !Read(c, lines[j]).Decoded?)
    ensures (forall j :: 1 <= j < |lines| ==> !Read(c, lines[j]).Decoded?) ==> NothingAfterDone(c, lines[1..])
  {
    hide Read;
    assert forall j :: 1 <= j < |lines| ==> lines[j] == lines[1..][j - 1];
  }

  lemma {:induction false} AnyChunking<E>(c: Codec<E>, buffer: string, chunks: seq<string>)
    requires Lines(buffer) == [] && Rest(buffer) == buffer
    requires NothingAfterDone(c, Lines(buffer + Join(chunks)))
    ensures DecodedFrom(c, buffer, chunks) == AllEvents(c, Lines(buffer + Join(chunks)))
    decreases |chunks|
  {
    hide NothingAfterDone;
    CutOffExactly(c, Lines(buffer + Join(chunks)));
    if chunks == [] {
      assert buffer + Join(chunks) == buffer;
    } else {
      var text := buffer + chunks[0];
      assert buffer + Join(chunks) == text + Join(chunks[1..]);
      LinesConcat(text, Join(chunks[1..]));
      RestHasNoLine(text);
      var first, later := Lines(text), Lines(Rest(text) + Join(chunks[1..]));
      AllEventsConcat(c, first, later);
      UpToDoneConcat(c, first, later);
      UpToDoneConcat(c, later, []);
      assert later + [] == later;
      CutOffExactly(c, later);
      AnyChunking(c, Rest(text), chunks[1..]);
    }
  }

  lemma {:induction false} RestHasNoLine(s: string)
    ensures Lines(Rest(s)) == [] && Rest(Rest(s)) == Rest(s) && '\n' !in Rest(s)
  {
    if s != "" {
      RestHasNoLine(s[1..]);
      if s[0] == '\n' || |Pieces(s[1..])| > 1 {
        assert Rest(s) == Rest(s[1..]);
      } else {
        assert Rest(s) == [s[0]] + Rest(s[1..]);
        assert Rest(s)[1..] == Rest(s[1..]);
      }
    }
  }

  /** The text cut into single characters. */
  function Single(text: string): seq<string> {
    if text == "" then [] else [[text[0]]] + Single(text[1..])
  }

  lemma {:induction false} SingleJoins(text: string)
    ensures Join(Single(text)) == text
  {
    if text != "" {
      SingleJoins(text[1..]);
      assert Single(text)[1..] == Single(text[1..]);
    }
  }

  lemma OneOrNone<E>(c: Codec<E>, lines: seq<string>)
    requires |lines| <= 1
    ensures UpToDone(c, lines) == AllEvents(c, lines)
  {
  }

  /** Character by character, at most one line is complete at a time, so the marker cuts nothing off. */
  lemma {:induction false} SingleSkipsNothing<E>(c: Codec<E>, buffer: string, text: string)
    requires '\n' !in buffer
    ensures DecodedFrom(c, buffer, Single(text)) == AllEvents(c, Lines(buffer + text))
    decreases |text|
  {
    if text == "" {
      assert buffer + text == buffer;
      OneLine(buffer, "");
    } else {
      var ch, rest := text[0], text[1..];
      hide Pieces, Lines, Rest, UpToDone, AllEvents;
      assert Single(text) == [[ch]] + Single(rest) && Single(text)[1..] == Single(rest);
      assert buffer + text == (buffer + [ch]) + rest;
      LinesConcat(buffer + [ch], rest);
      OneCharacter(buffer, ch);
      var first := Lines(buffer + [ch]);
      AllEventsConcat(c, first, Lines(Rest(buffer + [ch]) + rest));
      OneOrNone(c, first);
      SingleSkipsNothing(c, Rest(buffer + [ch]), rest);
    }
  }

  /** Every way of cutting the text into chunks gives the client the same events. */
  ghost predicate ChunkIndependent<E>(c: Codec<E>, text: string) {
    forall chunks :: Join(chunks) == text ==> DecodedFrom(c, "", chunks) == DecodedFrom(c, "", [text])
  }

  /** The decoded events do not depend on the chunking exactly when no event follows an end marker. */
  lemma ChunkIndependentExactly<E>(c: Codec<E>, text: string)
    ensures ChunkIndependent(c, text) <==> NothingAfterDone(c, Lines(text))
  {
    hide NothingAfterDone;
    CutOffExactly(c, Lines(text));
    assert "" + text == text;
    assert DecodedFrom(c, "", [text]) == UpToDone(c, Lines(text)) by {
      assert [text][1..] == [];
      assert DecodedFrom(c, Rest("" + text), [text][1..]) == [];
    }
    if NothingAfterDone(c, Lines(text)) {
      forall chunks | Join(chunks) == text ensures DecodedFrom(c, "", chunks) == DecodedFrom(c, "", [text]) {
        assert "" + Join(chunks) == text;
        AnyChunking(c, "", chunks);
      }
    }
    if ChunkIndependent(c, text) {
      SingleJoins(text);
      SingleSkipsNothing(c, "", text);
    }
  }

  /** An event behind an end marker: cut in front of it, the text gives the event; in one piece it does not. */
  lemma MarkerHidesEvent<E>(c: Codec<E>, e: E)
    requires Printable(c, e)
    ensures
      var text := "data: [DONE]\n" + Sse(c, e);
      && Lines(text) == ["data: [DONE]", "data: " + c.encode(e), ""]
      && !ChunkIndependent(c, text)
  {
    hide Read, Lines, Sse, NothingAfterDone;
    var line := "data: " + c.encode(e);
    MarkerLine(Sse(c, e));
    NoLines();
    SseLines(c, e, "");
    assert Sse(c, e) + "" == Sse(c, e);
    var text := "data: [DONE]\n" + Sse(c, e);
    assert Lines(text) == ["data: [DONE]"] + ([line, ""] + []) == ["data: [DONE]", line, ""];
    ReadMarker(c);
    ReadPrinted(c, e);
    MarkerFirst(c, Lines(text));
    ChunkIndependentExactly(c, text);
  }

  lemma MarkerFirst<E>(c: Codec<E>, lines: seq<string>)
    requires |lines| >= 2 && Read(c, lines[0]).Done? && Read(c, lines[1]).Decoded?
    ensures !NothingAfterDone(c, lines)
  {
    hide Read;
  }

  lemma MarkerLine(rest: string)
    ensures Lines("data: [DONE]\n" + rest) == ["data: [DONE]"] + Lines(rest)
  {
    assert "data: [DONE]\n" + rest == "data: [DONE]" + "\n" + rest;
    OneLine("data: [DONE]", rest);
  }

  lemma ReadMarker<E>(c: Codec<E>)
    ensures Read(c, "data: [DONE]").Done?
  {
    var line := "data: [DONE]";
    assert line[6..] == DONE;
  }

  /** Round trip: for every list of events and every chunking of their print, the client decodes that list. */
  lemma RoundTrip<E(!new)>(c: Codec<E>, events: seq<E>, chunks: seq<string>)
    requires Invertible(c) && Join(chunks) == Print(c, events)
    ensures DecodedFrom(c, "", chunks) == events
  {
    hide NothingAfterDone;
    PrintedLines(c, events);
    CutOffExactly(c, Lines(Print(c, events)));
    assert "" + Join(chunks) == Print(c, events);
    AnyChunking(c, "", chunks);
  }
}
