/** The two ends around the stream: the server's event generator and the client's read loop and reducer. */
module ChatClient {
  import opened Basics
  import opened ChatStream

  // ----- the server side -----

  /** The events a request prints: until the client is gone, and an error event if the runtime raised. */
  function Sent<E>(events: seq<E>, raises: bool, goneAt: nat, error: E): seq<E> {
    if goneAt < |events| then events[..goneAt] else if raises then events + [error] else events
  }

  /**
   * What is sent is a prefix of the runtime's events and an error event: all events unless the client left
   * before one of them, and the error event exactly when the runtime raised and the client had not left.
   */
  lemma SentExactly<E>(events: seq<E>, raises: bool, goneAt: nat, error: E)
    ensures
      var sent := Sent(events, raises, goneAt, error);
      && sent <= events + [error]
      && (events <= sent <==> goneAt >= |events|)
      && (|sent| == |events| + 1 <==> raises && goneAt >= |events|)
      && (goneAt < |events| ==> |sent| == goneAt)
  {
  }

  lemma {:induction false} PrintAppend<E>(c: Codec<E>, events: seq<E>, e: E)
    ensures Print(c, events + [e]) == Print(c, events) + Sse(c, e)
  {
    if events == [] {
      assert [e][1..] == [];
      assert Sse(c, e) + "" == Sse(c, e);
    } else {
      PrintAppend(c, events[1..], e);
      assert (events + [e])[1..] == events[1..] + [e];
    }
  }

  method ChatEvents<E>(c: Codec<E>, events: seq<E>, raises: bool, goneAt: nat, error: E) returns (text: string)
    ensures text == Print(c, Sent(events, raises, goneAt, error))
  {
    text := "";
    for i := 0 to |events|
      invariant i <= goneAt && text == Print(c, events[..i])
    {
      if i == goneAt {
        return;
      }
      PrintAppend(c, events[..i], events[i]);
      assert events[..i] + [events[i]] == events[..i + 1];
      text := text + Sse(c, events[i]);
    }
    assert events[..|events|] == events;
    if raises {
      PrintAppend(c, events, error);
      text := text + Sse(c, error);
    }
  }

  // ----- the client side -----

  /** What the client has shown: `deltas` are the text callbacks, `metadata` the events whose metadata it reported. */
  datatype View<E> = View(seen: set<string>, fullText: string, deltas: seq<string>, metadata: seq<E>)

  function Blank<E>(): View<E> {
    View({}, "", [], [])
  }

  predicate EndsWith(s: string, t: string) {
    |t| <= |s| && s[|s| - |t|..] == t
  }

  /** An event that was seen before is skipped; so is a text that the shown text already ends with. */
  function Handle<E>(c: Codec<E>, v: View<E>, e: E): View<E> {
    if c.key(e) in v.seen then v
    else
      var marked := v.(seen := v.seen + {c.key(e)});
      var delta := c.delta(e);
      if delta == "" then marked.(metadata := v.metadata + [e])
      else if EndsWith(v.fullText, delta) then marked
      else marked.(fullText := v.fullText + delta, deltas := v.deltas + [delta], metadata := v.metadata + [e])
  }

  function Show<E>(c: Codec<E>, events: seq<E>): View<E> {
    if events == [] then Blank() else Handle(c, Show(c, events[..|events| - 1]), events[|events| - 1])
  }

  lemma ShowAppend<E>(c: Codec<E>, events: seq<E>, e: E)
    ensures Show(c, events + [e]) == Handle(c, Show(c, events), e)
  {
    assert (events + [e])[..|events|] == events;
  }

  /** The line loop of one chunk: the end marker leaves it. */
  method ReadLines<E>(c: Codec<E>, lines: seq<string>, shown: View<E>, ghost before: seq<E>) returns (view: View<E>)
    requires shown == Show(c, before)
    ensures view == Show(c, before + UpToDone(c, lines))
  {
    hide Handle, Read, Show, UpToDone;
    view := shown;
    ghost var target, decoded := before + UpToDone(c, lines), before;
    var j := 0;
    assert lines[0..] == lines;
    while j < |lines|
      invariant 0 <= j <= |lines|
      invariant view == Show(c, decoded)
      invariant decoded + UpToDone(c, lines[j..]) == target
    {
      var line := lines[j];
      ghost var rest := UpToDone(c, lines[j + 1..]);
      UpToDoneAt(c, lines, j);
      j := j + 1;
      match Read(c, line) {
        case Done =>
          assert decoded + [] == decoded == target;
          break;
        case Ignored =>
        case Decoded(e) =>
          ShowAppend(c, decoded, e);
          assert decoded + ([e] + rest) == decoded + [e] + rest;
          decoded := decoded + [e];
          view := Handle(c, view, e);
      }
    }
    NoLinesNoEvents(c);
    assert j == |lines| ==> lines[j..] == [];
    assert decoded + [] == decoded;
  }

  lemma NoLinesNoEvents<E>(c: Codec<E>)
    ensures UpToDone(c, []) == []
  {
  }

  lemma UpToDoneAt<E>(c: Codec<E>, lines: seq<string>, j: nat)
    requires j < |lines|
    ensures UpToDone(c, lines[j..]) ==
            match Read(c, lines[j])
            case Done => []
            case Ignored => UpToDone(c, lines[j + 1..])
            case Decoded(e) => [e] + UpToDone(c, lines[j + 1..])
  {
    assert lines[j..][1..] == lines[j + 1..];
    assert [] + UpToDone(c, lines[j + 1..]) == UpToDone(c, lines[j + 1..]);
  }

  /** The read loop. Its view is that of the events decoded from the chunks, whatever the chunks are. */
  method SendChat<E>(c: Codec<E>, chunks: seq<string>) returns (view: View<E>, buffer: string)
    ensures view == Show(c, DecodedFrom(c, "", chunks))
  {
    hide Handle, Read, Pieces, Show, UpToDone;
    view, buffer := Blank(), "";
    ghost var decoded: seq<E> := [];
    var i := 0;
    NothingShown(c);
    assert chunks[0..] == chunks && [] + DecodedFrom(c, "", chunks) == DecodedFrom(c, "", chunks);
    while i < |chunks|
      invariant 0 <= i <= |chunks|
      invariant view == Show(c, decoded)
      invariant decoded + DecodedFrom(c, buffer, chunks[i..]) == DecodedFrom(c, "", chunks)
    {
      var pieces := Pieces(buffer + chunks[i]);
      var lines := pieces[..|pieces| - 1];
      assert chunks[i..][1..] == chunks[i + 1..];
      ghost var events := UpToDone(c, lines);
      ghost var later := DecodedFrom(c, pieces[|pieces| - 1], chunks[i + 1..]);
      assert decoded + (events + later) == decoded + events + later;
      buffer := pieces[|pieces| - 1];
      view := ReadLines(c, lines, view, decoded);
      decoded := decoded + events;
      i := i + 1;
    }
    assert decoded + [] == decoded;
  }

  lemma NothingShown<E>(c: Codec<E>)
    ensures Show(c, []) == Blank()
  {
  }

  // ----- which texts reach the reader -----

  /** The text the server streamed. */
  function Streamed<E>(c: Codec<E>, events: seq<E>): string {
    if events == [] then "" else Streamed(c, events[..|events| - 1]) + c.delta(events[|events| - 1])
  }

  function Keys<E>(c: Codec<E>, events: seq<E>): set<string> {
    set i | 0 <= i < |events| :: c.key(events[i])
  }

  /** No visible text comes with a repeated event, or repeats the end of what was streamed before it. */
  predicate NothingDropped<E>(c: Codec<E>, events: seq<E>) {
    events == [] ||
    (var prior, e := events[..|events| - 1], events[|events| - 1];
     && NothingDropped(c, prior)
     && (c.delta(e) == "" || (c.key(e) !in Keys(c, prior) && !EndsWith(Streamed(c, prior), c.delta(e)))))
  }

  lemma {:induction false} SeenKeys<E>(c: Codec<E>, events: seq<E>)
    ensures Show(c, events).seen == Keys(c, events)
  {
    if events != [] {
      var n := |events| - 1;
      SeenKeys(c, events[..n]);
      assert Keys(c, events) == Keys(c, events[..n]) + {c.key(events[n])};
    }
  }

  lemma {:induction false} ShownLength<E>(c: Codec<E>, events: seq<E>)
    ensures |Show(c, events).fullText| <= |Streamed(c, events)|
    ensures |Show(c, events).fullText| == |Streamed(c, events)| <==> NothingDropped(c, events)
    ensures NothingDropped(c, events) ==> Show(c, events).fullText == Streamed(c, events)
  {
    if events != [] {
      ShownLength(c, events[..|events| - 1]);
      SeenKeys(c, events[..|events| - 1]);
    }
  }

  /** The reader sees exactly the streamed text if and only if nothing is taken for a duplicate. */
  lemma TextCompleteExactly<E>(c: Codec<E>, events: seq<E>)
    ensures Show(c, events).fullText == Streamed(c, events) <==> NothingDropped(c, events)
  {
    ShownLength(c, events);
  }

  /** A text streamed twice in a row is shown once, even in two different events. */
  lemma RepeatedTextIsLost<E>(c: Codec<E>, a: E, b: E)
    requires c.delta(a) == c.delta(b) && c.delta(a) != "" && c.key(a) != c.key(b)
    ensures Show(c, [a, b]).fullText == c.delta(a) && Streamed(c, [a, b]) == c.delta(a) + c.delta(b)
  {
    assert [a, b] == [a] + [b] && [a] == [] + [a];
    ShowAppend(c, [a], b);
    ShowAppend(c, [], a);
    assert [a, b][..1] == [a] && [a][..0] == [];
    assert Streamed(c, [a]) == "" + c.delta(a);
  }

  /** Equal keys mean equal events. */
  predicate KeysTell<E(==)>(c: Codec<E>, events: seq<E>) {
    forall i, j :: 0 <= i < |events| && 0 <= j < |events| && c.key(events[i]) == c.key(events[j]) ==>
      events[i] == events[j]
  }

  lemma {:induction false} MetadataStreamed<E>(c: Codec<E>, events: seq<E>)
    ensures forall e :: e in Show(c, events).metadata ==> e in events && c.key(e) in Keys(c, events)
  {
    if events != [] {
      var n := |events| - 1;
      MetadataStreamed(c, events[..n]);
      assert forall e :: e in events[..n] ==> e in events;
      assert Keys(c, events) == Keys(c, events[..n]) + {c.key(events[n])};
    }
  }

  lemma {:induction false} MetadataDistinct<E>(c: Codec<E>, events: seq<E>)
    ensures
      var reported := Show(c, events).metadata;
      forall i, j :: 0 <= i < j < |reported| ==> c.key(reported[i]) != c.key(reported[j])
  {
    if events != [] {
      var prior := events[..|events| - 1];
      MetadataDistinct(c, prior);
      MetadataStreamed(c, prior);
      SeenKeys(c, prior);
      var reported := Show(c, prior).metadata;
      assert forall i :: 0 <= i < |reported| ==> reported[i] in reported;
    }
  }

  lemma {:induction false} MetadataComplete<E>(c: Codec<E>, events: seq<E>, e: E)
    requires KeysTell(c, events) && e in events && c.delta(e) == ""
    ensures e in Show(c, events).metadata
  {
    var n := |events| - 1;
    var prior, last := events[..n], events[n];
    assert events == prior + [last];
    assert forall i :: 0 <= i < n ==> events[i] == prior[i];
    SeenKeys(c, prior);
    if e in prior {
      MetadataComplete(c, prior, e);
    }
  }

  /** The visible texts of some events, in order. */
  function TextsOf<E>(c: Codec<E>, events: seq<E>): seq<string> {
    if events == [] then []
    else
      var n := |events| - 1;
      TextsOf(c, events[..n]) + if c.delta(events[n]) == "" then [] else [c.delta(events[n])]
  }

  /** Metadata and text callbacks go together: the reported events with visible text are those whose text was shown. */
  lemma {:induction false} MetadataGoesWithText<E>(c: Codec<E>, events: seq<E>)
    ensures TextsOf(c, Show(c, events).metadata) == Show(c, events).deltas
  {
    if events != [] {
      var n := |events| - 1;
      var v, e := Show(c, events[..n]), events[n];
      MetadataGoesWithText(c, events[..n]);
      assert (v.metadata + [e])[..|v.metadata|] == v.metadata;
      assert v.deltas + [] == v.deltas;
    }
  }

  /**
   * Metadata is reported at most once for each event, only for events that were streamed, and for every
   * event without visible text, however often it was repeated.
   */
  lemma MetadataReported<E>(c: Codec<E>, events: seq<E>)
    ensures
      var reported := Show(c, events).metadata;
      && (forall i, j :: 0 <= i < j < |reported| ==> c.key(reported[i]) != c.key(reported[j]))
      && (forall e :: e in reported ==> e in events)
      && (KeysTell(c, events) ==> forall e :: e in events && c.delta(e) == "" ==> e in reported)
  {
    hide Show, KeysTell;
    MetadataStreamed(c, events);
    MetadataDistinct(c, events);
    if KeysTell(c, events) {
      forall e | e in events && c.delta(e) == "" ensures e in Show(c, events).metadata {
        MetadataComplete(c, events, e);
      }
    }
  }

  /** The test for a repeated text is whether the shown text ends in it. */
  lemma EndsWithExactly(s: string, t: string)
    ensures EndsWith(s, t) <==> exists before :: s == before + t
  {
    if EndsWith(s, t) {
      assert s == s[..|s| - |t|] + t;
    }
  }

  /** From the runtime to the client: under any chunking, the client decodes exactly what was sent. */
  lemma ClientDecodesSent<E(!new)>(
      c: Codec<E>, events: seq<E>, raises: bool, goneAt: nat, error: E, chunks: seq<string>)
    requires Invertible(c) && Join(chunks) == Print(c, Sent(events, raises, goneAt, error))
    ensures
      var decoded := DecodedFrom(c, "", chunks);
      && decoded <= events + [error]
      && |decoded| == if goneAt < |events| then goneAt else if raises then |events| + 1 else |events|
  {
    RoundTrip(c, Sent(events, raises, goneAt, error), chunks);
    SentExactly(events, raises, goneAt, error);
  }

  /** End to end: the text shown for a printed stream, under any chunking. */
  lemma ShownText<E(!new)>(c: Codec<E>, events: seq<E>, chunks: seq<string>)
    requires Invertible(c) && Join(chunks) == Print(c, events)
    ensures
      var view := Show(c, DecodedFrom(c, "", chunks));
      && view == Show(c, events)
      && (view.fullText == Streamed(c, events) <==> NothingDropped(c, events))
  {
    RoundTrip(c, events, chunks);
    TextCompleteExactly(c, events);
  }

  // ----- the reducer -----

  datatype Message = Message(id: string, content: string)

  function Reduce(messages: seq<Message>, id: string, delta: string): (r: seq<Message>)
    ensures |r| == |messages|
    ensures forall i :: 0 <= i < |r| ==>
              r[i] == if messages[i].id == id then messages[i].(content := messages[i].content + delta) else messages[i]
  {
    if messages == [] then []
    else
      [if messages[0].id == id then messages[0].(content := messages[0].content + delta) else messages[0]]
      + Reduce(messages[1..], id, delta)
  }

  function ReduceAll(messages: seq<Message>, id: string, deltas: seq<string>): (r: seq<Message>)
    ensures |r| == |messages|
    decreases |deltas|
  {
    if deltas == [] then messages else ReduceAll(Reduce(messages, id, deltas[0]), id, deltas[1..])
  }

  lemma {:induction false} ReduceAllSpells(messages: seq<Message>, id: string, deltas: seq<string>, i: nat)
    requires i < |messages|
    ensures ReduceAll(messages, id, deltas)[i] ==
            if messages[i].id == id then messages[i].(content := messages[i].content + Join(deltas)) else messages[i]
    decreases |deltas|
  {
    if deltas == [] {
      assert messages[i].content + "" == messages[i].content;
    } else {
      ReduceAllSpells(Reduce(messages, id, deltas[0]), id, deltas[1..], i);
      var content := messages[i].content;
      assert content + deltas[0] + Join(deltas[1..]) == content + (deltas[0] + Join(deltas[1..]));
    }
  }

  lemma {:induction false} JoinAppend(chunks: seq<string>, last: string)
    ensures Join(chunks + [last]) == Join(chunks) + last
  {
    if chunks == [] {
      assert [last][1..] == [] && last + "" == last && "" + last == last;
    } else {
      JoinAppend(chunks[1..], last);
      assert (chunks + [last])[1..] == chunks[1..] + [last];
      assert chunks[0] + (Join(chunks[1..]) + last) == chunks[0] + Join(chunks[1..]) + last;
    }
  }

  lemma {:induction false} DeltasSpellText<E>(c: Codec<E>, events: seq<E>)
    ensures Join(Show(c, events).deltas) == Show(c, events).fullText
  {
    if events != [] {
      var v, e := Show(c, events[..|events| - 1]), events[|events| - 1];
      DeltasSpellText(c, events[..|events| - 1]);
      JoinAppend(v.deltas, c.delta(e));
    }
  }

  /**
   * The second accumulator agrees with the first: dispatching the text callbacks to the reducer appends
   * exactly the loop's full text to the messages with the stream's id, and to no others.
   */
  lemma ReducerShowsFullText<E>(c: Codec<E>, events: seq<E>, messages: seq<Message>, id: string, i: nat)
    requires i < |messages|
    ensures
      var view := Show(c, events);
      ReduceAll(messages, id, view.deltas)[i] ==
      if messages[i].id == id then messages[i].(content := messages[i].content + view.fullText) else messages[i]
  {
    DeltasSpellText(c, events);
    ReduceAllSpells(messages, id, Show(c, events).deltas, i);
  }
}
