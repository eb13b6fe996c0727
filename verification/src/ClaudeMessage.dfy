/** How the upstream streams a message, and what becomes of it: streaming and not streaming agree. */
module ClaudeMessage {
  import opened Wrappers
  import opened Text
  import opened Json
  import opened Sse
  import opened SseParser

  // ---- the events of a stream ----

  datatype Event =
    | TextDelta(fragment: string, payload: string)
    | SilentDelta(payload: string)  // a delta without text: thinking, or the input of a tool
    | OtherEvent(name: string, rest: seq<string>)
    | MessageStop(payload: string)

  function Pair(name: string, payload: string): seq<string> {
    ["event: " + name, "data: " + payload, ""]
  }

  function EventLines(e: Event): seq<string> {
    match e
    case TextDelta(_, payload) => Pair("content_block_delta", payload)
    case SilentDelta(payload) => Pair("content_block_delta", payload)
    case OtherEvent(name, rest) => ["event: " + name] + rest
    case MessageStop(payload) => Pair("message_stop", payload)
  }

  function StreamLines(es: seq<Event>): seq<string> {
    if es == [] then [] else StreamLines(es[..|es| - 1]) + EventLines(es[|es| - 1])
  }

  /** The payload of a data line as the scanner sees it. */
  function Seen(payload: string): string {
    TrimSpace(" " + payload)
  }

  /** The scanner reads on after a data line without a payload and after [DONE]. */
  predicate Carries(payload: string) {
    Seen(payload) != "" && Seen(payload) != "[DONE]"
  }

  ghost predicate WellFormedEvent(decodeDelta: string -> Option<string>, e: Event) {
    match e
    case TextDelta(fragment, payload) => Carries(payload) && decodeDelta(Seen(payload)) == Some(fragment)
    case SilentDelta(payload) => decodeDelta(Seen(payload)) == None || decodeDelta(Seen(payload)) == Some("")
    case OtherEvent(name, rest) =>
      && Seen(name) != "content_block_delta" && Seen(name) != "message_stop"
      && forall line :: line in rest ==> !StartsWith(line, "event:")
    case MessageStop(payload) => Carries(payload)
  }

  /** The text of the deltas among the events. */
  function Fragments(es: seq<Event>): string {
    if es == [] then ""
    else Fragments(es[..|es| - 1]) + (if es[|es| - 1].TextDelta? then es[|es| - 1].fragment else "")
  }

  function StopEvents(es: seq<Event>): nat {
    if es == [] then 0 else StopEvents(es[..|es| - 1]) + (if es[|es| - 1].MessageStop? then 1 else 0)
  }

  // ---- the events of a message ----

  /** One part of the message and the events that stream it, fragmented in any way. */
  datatype Block = Block(part: Part, events: seq<Event>)

  datatype Message = Message(prologue: seq<Event>, blocks: seq<Block>, epilogue: seq<Event>, stop: string)

  function BlockEvents(blocks: seq<Block>): seq<Event> {
    if blocks == [] then [] else BlockEvents(blocks[..|blocks| - 1]) + blocks[|blocks| - 1].events
  }

  function PartsOf(blocks: seq<Block>): seq<Part> {
    if blocks == [] then [] else PartsOf(blocks[..|blocks| - 1]) + [blocks[|blocks| - 1].part]
  }

  function Events(m: Message): seq<Event> {
    m.prologue + BlockEvents(m.blocks) + m.epilogue + [MessageStop(m.stop)]
  }

  ghost predicate Silent(es: seq<Event>) {
    forall e :: e in es ==> !e.TextDelta?
  }

  /** A text part comes as its fragments, any other part without text. */
  ghost predicate Streams(b: Block) {
    if b.part.kind == "text" then Fragments(b.events) == b.part.text else Silent(b.events)
  }

  ghost predicate WellFormed(decodeDelta: string -> Option<string>, m: Message) {
    && Silent(m.prologue) && Silent(m.epilogue)
    && (forall b :: b in m.blocks ==> Streams(b))
    && (forall e :: e in Events(m) ==> WellFormedEvent(decodeDelta, e))
    && (forall e :: e in m.prologue + BlockEvents(m.blocks) + m.epilogue ==> !e.MessageStop?)
  }

  // ---- one event through the scanner ----

  lemma ScanOne(decodeDelta: string -> Option<string>, lines: seq<string>, line: string)
    ensures ScanLines(decodeDelta, lines + [line]) == ScanLine(ScanLines(decodeDelta, lines), decodeDelta, line)
  {
    assert (lines + [line])[..|lines|] == lines;
  }

  lemma ScanShape(decodeDelta: string -> Option<string>, lines: seq<string>)
    ensures var s := ScanLines(decodeDelta, lines); WellShaped(s.chunks) && (s.first <==> NoContent(s.chunks))
  {
    ScanMeaning(decodeDelta, lines, |lines|);
    assert lines[..|lines|] == lines;
  }

  /** What one more line adds to the scan of the lines before it. */
  lemma LineAdds(decodeDelta: string -> Option<string>, lines: seq<string>, line: string)
    ensures var s, t := ScanLines(decodeDelta, lines), ScanLines(decodeDelta, lines + [line]);
            && t.eventType == (if IsEvent(line) then EventName(line) else s.eventType)
            && TextOf(t.chunks) == TextOf(s.chunks) +
               (if IsData(line) && s.eventType == DELTA then DeltaText(decodeDelta, DataOf(line)) else "")
            && CountDone(t.chunks) == CountDone(s.chunks) + (if IsData(line) && s.eventType == STOP then 1 else 0)
  {
    hide ScanLine, ScanLines, IsEvent, IsData, EventName, DataOf, DeltaText, TextOf, CountDone, WellShaped, NoContent;
    ScanShape(decodeDelta, lines);
    ScanOne(decodeDelta, lines, line);
    LineMeaning(ScanLines(decodeDelta, lines), decodeDelta, line);
  }

  lemma DataLine(payload: string)
    ensures var line := "data: " + payload;
            !IsEvent(line) && StartsWith(line, DATA) && DataOf(line) == Seen(payload)
  {
    var line := "data: " + payload;
    assert line[0] == 'd';
    assert line[..|DATA|] == DATA && line[|DATA|..] == " " + payload;
  }

  lemma EventLine(name: string)
    ensures var line := "event: " + name; IsEvent(line) && EventName(line) == Seen(name)
  {
    var line := "event: " + name;
    assert line[..|EVENT|] == EVENT && line[|EVENT|..] == " " + name;
  }

  /** An event line and a data line: the event is in force, and the payload counts under it. */
  lemma PairMeaning(decodeDelta: string -> Option<string>, lines: seq<string>, name: string, payload: string)
    ensures var s, t := ScanLines(decodeDelta, lines), ScanLines(decodeDelta, lines + Pair(name, payload));
            && TextOf(t.chunks) == TextOf(s.chunks) +
               (if Carries(payload) && Seen(name) == DELTA then DeltaText(decodeDelta, Seen(payload)) else "")
            && CountDone(t.chunks) == CountDone(s.chunks) + (if Carries(payload) && Seen(name) == STOP then 1 else 0)
  {
    assert !IsEvent("") && !StartsWith("", DATA);
    hide ScanLines, Seen, IsEvent, StartsWith, EventName, DataOf, DeltaText, TextOf, CountDone;
    var l1 := lines + ["event: " + name];
    var l2 := l1 + ["data: " + payload];
    assert lines + Pair(name, payload) == l2 + [""];
    EventLine(name);
    DataLine(payload);
    LineAdds(decodeDelta, lines, "event: " + name);
    LineAdds(decodeDelta, l1, "data: " + payload);
    LineAdds(decodeDelta, l2, "");
  }

  /** Lines under an event of another name add nothing. */
  lemma {:induction false} OtherMeaning(decodeDelta: string -> Option<string>, lines: seq<string>, name: string,
                                        rest: seq<string>)
    requires Seen(name) != DELTA && Seen(name) != STOP && forall line :: line in rest ==> !IsEvent(line)
    ensures var s, t := ScanLines(decodeDelta, lines), ScanLines(decodeDelta, lines + (["event: " + name] + rest));
            && t.eventType == Seen(name)
            && TextOf(t.chunks) == TextOf(s.chunks) && CountDone(t.chunks) == CountDone(s.chunks)
    decreases |rest|
  {
    hide ScanLines, Seen, StartsWith, EventName, DataOf, DeltaText, TextOf, CountDone;
    if rest == [] {
      assert lines + (["event: " + name] + rest) == lines + ["event: " + name];
      EventLine(name);
      LineAdds(decodeDelta, lines, "event: " + name);
    } else {
      var init, last := rest[..|rest| - 1], rest[|rest| - 1];
      var before := lines + (["event: " + name] + init);
      OtherMeaning(decodeDelta, lines, name, init);
      assert lines + (["event: " + name] + rest) == before + [last];
      LineAdds(decodeDelta, before, last);
    }
  }

  /** What one event adds to the converted stream. */
  lemma EventMeaning(decodeDelta: string -> Option<string>, lines: seq<string>, e: Event)
    requires WellFormedEvent(decodeDelta, e)
    ensures var s, t := ScanLines(decodeDelta, lines), ScanLines(decodeDelta, lines + EventLines(e));
            && TextOf(t.chunks) == TextOf(s.chunks) + (if e.TextDelta? then e.fragment else "")
            && CountDone(t.chunks) == CountDone(s.chunks) + (if e.MessageStop? then 1 else 0)
  {
    NamesSeen();
    hide ScanLines, Seen, TextOf, CountDone, StartsWith, Pair;
    match e
    case TextDelta(_, payload) => PairMeaning(decodeDelta, lines, DELTA, payload);
    case SilentDelta(payload) => PairMeaning(decodeDelta, lines, DELTA, payload);
    case OtherEvent(name, rest) => OtherMeaning(decodeDelta, lines, name, rest);
    case MessageStop(payload) => PairMeaning(decodeDelta, lines, STOP, payload);
  }

  lemma NamesSeen()
    ensures Seen(DELTA) == DELTA && Seen(STOP) == STOP && DELTA != STOP
  {
    TrimSpaceFixed(DELTA);
    TrimSpaceFixed(STOP);
    assert (" " + DELTA)[1..] == DELTA && (" " + STOP)[1..] == STOP;
    assert DELTA[0] != STOP[0];
  }

  /** What a stream of events becomes: its fragments, and one [DONE] for each stop. */
  lemma {:induction false} EventsMeaning(decodeDelta: string -> Option<string>, es: seq<Event>)
    requires forall e :: e in es ==> WellFormedEvent(decodeDelta, e)
    ensures var s := ScanLines(decodeDelta, StreamLines(es));
            TextOf(s.chunks) == Fragments(es) && CountDone(s.chunks) == StopEvents(es)
  {
    hide WellFormedEvent, EventLines;
    if es == [] {
      assert ScanLines(decodeDelta, []).chunks == [];
    } else {
      var init, last := es[..|es| - 1], es[|es| - 1];
      EventsMeaning(decodeDelta, init);
      hide ScanLines, TextOf, CountDone;
      EventMeaning(decodeDelta, StreamLines(init), last);
    }
  }

  // ---- the fragments of a message ----

  lemma FragmentsAppend(es: seq<Event>, e: Event)
    ensures Fragments(es + [e]) == Fragments(es) + (if e.TextDelta? then e.fragment else "")
    ensures StopEvents(es + [e]) == StopEvents(es) + (if e.MessageStop? then 1 else 0)
  {
    assert (es + [e])[..|es|] == es;
  }

  lemma {:induction false} FragmentsJoin(a: seq<Event>, b: seq<Event>)
    ensures Fragments(a + b) == Fragments(a) + Fragments(b)
    decreases |b|
  {
    if b == [] {
      assert a + b == a;
    } else {
      hide Fragments, StopEvents;
      var init, last := b[..|b| - 1], b[|b| - 1];
      FragmentsJoin(a, init);
      JoinLast(a, b);
      FragmentsAppend(init, last);
      FragmentsAppend(a + init, last);
      var text := if last.TextDelta? then last.fragment else "";
      assert Fragments(a) + Fragments(init) + text == Fragments(a) + (Fragments(init) + text);
    }
  }

  lemma {:induction false} StopsJoin(a: seq<Event>, b: seq<Event>)
    ensures StopEvents(a + b) == StopEvents(a) + StopEvents(b)
    decreases |b|
  {
    if b == [] {
      assert a + b == a;
    } else {
      hide Fragments, StopEvents;
      var init, last := b[..|b| - 1], b[|b| - 1];
      StopsJoin(a, init);
      JoinLast(a, b);
      FragmentsAppend(init, last);
      FragmentsAppend(a + init, last);
    }
  }

  lemma JoinLast(a: seq<Event>, b: seq<Event>)
    requires b != []
    ensures var init, last := b[..|b| - 1], b[|b| - 1]; b == init + [last] && a + b == a + init + [last]
  {}

  lemma {:induction false} SilentFragments(es: seq<Event>)
    requires Silent(es)
    ensures Fragments(es) == ""
  {
    if es != [] {
      SilentFragments(es[..|es| - 1]);
    }
  }

  lemma {:induction false} NoStops(es: seq<Event>)
    requires forall e :: e in es ==> !e.MessageStop?
    ensures StopEvents(es) == 0
  {
    if es != [] {
      NoStops(es[..|es| - 1]);
    }
  }

  lemma {:induction false} BlockFragments(blocks: seq<Block>)
    requires forall b :: b in blocks ==> Streams(b)
    ensures Fragments(BlockEvents(blocks)) == TextParts(PartsOf(blocks))
  {
    if blocks != [] {
      var init, last := blocks[..|blocks| - 1], blocks[|blocks| - 1];
      BlockFragments(init);
      FragmentsJoin(BlockEvents(init), last.events);
      var parts := PartsOf(blocks);
      assert parts[..|parts| - 1] == PartsOf(init);
      assert Streams(last);
      if last.part.kind != "text" {
        SilentFragments(last.events);
      }
    }
  }

  lemma MessageFragments(decodeDelta: string -> Option<string>, m: Message)
    requires WellFormed(decodeDelta, m)
    ensures Fragments(Events(m)) == TextParts(PartsOf(m.blocks)) && StopEvents(Events(m)) == 1
  {
    hide Silent, Streams, WellFormedEvent, TextParts, PartsOf;
    var body := BlockEvents(m.blocks);
    SilentFragments(m.prologue);
    SilentFragments(m.epilogue);
    BlockFragments(m.blocks);
    FragmentsJoin(m.prologue, body);
    FragmentsJoin(m.prologue + body, m.epilogue);
    NoStops(m.prologue + body + m.epilogue);
    StopsJoin(m.prologue + body + m.epilogue, [MessageStop(m.stop)]);
    FragmentsJoin(m.prologue + body + m.epilogue, [MessageStop(m.stop)]);
    assert [MessageStop(m.stop)][..0] == [];
  }

  /** Streaming and not streaming agree: however the upstream fragments the text parts of a
      message and whatever other events it sends between them, the converted stream, read back, is
      the content of the non-streaming conversion of the message, closed by one [DONE]. */
  lemma StreamedIsContent(c: Codec, decodeDelta: string -> Option<string>, model: string, m: Message)
    requires Lawful(c) && WellFormed(decodeDelta, m)
    ensures var chunks := ScanLines(decodeDelta, StreamLines(Events(m))).chunks;
            && LinesText(c, Lines(Printed(c, Stream(CLAUDE_STREAM, model), chunks))) ==
               Parsed("", TextParts(PartsOf(m.blocks)))
            && CountDone(chunks) == 1
  {
    hide Lawful, Printed, LinesText, ScanLines, StreamLines, Events, WellFormedEvent, Streams, Silent,
        TextOf, Deltas;
    var lines := StreamLines(Events(m));
    EventsMeaning(decodeDelta, Events(m));
    MessageFragments(decodeDelta, m);
    ClaudeStreamReadsBack(c, decodeDelta, model, lines);
    ScannedText(decodeDelta, lines);
  }

  lemma ScannedText(decodeDelta: string -> Option<string>, lines: seq<string>)
    ensures TextOf(ScanLines(decodeDelta, lines).chunks) == Deltas(decodeDelta, lines, |lines|)
  {
    ScanMeaning(decodeDelta, lines, |lines|);
    assert lines[..|lines|] == lines;
  }
}
