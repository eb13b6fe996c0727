/** Server-sent events: the Claude and Gemini printers and the content parser of the debug log.
    Framing follows section 9.2 of the HTML Living Standard: `data:` lines ended by a blank line. */
module Sse {
  import opened Wrappers
  import opened Text
  import opened Json

  // ---- chunks ----

  /** What a printer writes. */
  datatype Chunk =
    | Content(text: string, role: bool)
    | Finish
    | Done

  datatype Stream = Stream(id: string, model: string)

  function ChunkValue(st: Stream, delta: map<string, Value>, reason: Value): Value {
    Obj(map["id" := Str(st.id), "object" := Str("chat.completion.chunk"), "model" := Str(st.model),
            "choices" := Arr([Obj(map["index" := Num(0), "delta" := Obj(delta), "finish_reason" := reason])])])
  }

  function ContentValue(st: Stream, text: string, role: bool): Value {
    ChunkValue(st, if role then map["content" := Str(text), "role" := Str("assistant")]
        else map["content" := Str(text)], Null)
  }

  function FinishValue(st: Stream): Value {
    ChunkValue(st, map[], Str("stop"))
  }

  function Payload(c: Codec, st: Stream, k: Chunk): string {
    match k
    case Content(text, role) => (c.encode)(ContentValue(st, text, role))
    case Finish => (c.encode)(FinishValue(st))
    case Done => "[DONE]"
  }

  function Frame(payload: string): string {
    "data: " + payload + "\n\n"
  }

  function Printed(c: Codec, st: Stream, ks: seq<Chunk>): string {
    if ks == [] then "" else Printed(c, st, ks[..|ks| - 1]) + Frame(Payload(c, st, ks[|ks| - 1]))
  }

  /** Decoding undoes encoding on everything the printers write. */
  ghost predicate Lawful(c: Codec) {
    && (forall st, text, role :: Faithful(c, ContentValue(st, text, role)))
    && (forall st :: Faithful(c, FinishValue(st)))
  }

  /** The text a list of chunks carries. */
  function TextOf(ks: seq<Chunk>): string {
    if ks == [] then ""
    else TextOf(ks[..|ks| - 1]) + (if ks[|ks| - 1].Content? then ks[|ks| - 1].text else "")
  }

  // ---- the Claude converter ----

  datatype Scan = Scan(eventType: string, first: bool, chunks: seq<Chunk>)

  const EVENT := "event:"
  const DATA := "data:"
  const DELTA := "content_block_delta"
  const STOP := "message_stop"

  predicate IsEvent(line: string) {
    StartsWith(line, EVENT)
  }

  /** A data line with something in it. */
  predicate IsData(line: string) {
    !IsEvent(line) && StartsWith(line, DATA) && DataOf(line) != "" && DataOf(line) != "[DONE]"
  }

  function EventName(line: string): string
    requires IsEvent(line)
  {
    TrimSpace(line[|EVENT|..])
  }

  function DataOf(line: string): string
    requires StartsWith(line, DATA)
  {
    TrimSpace(line[|DATA|..])
  }

  /** The delta text of a payload; nothing when it does not decode. */
  function DeltaText(decodeDelta: string -> Option<string>, payload: string): string {
    match decodeDelta(payload)
    case Some(text) => text
    case None => ""
  }

  function ScanLine(s: Scan, decodeDelta: string -> Option<string>, line: string): Scan {
    if IsEvent(line) then s.(eventType := EventName(line))
    else if !IsData(line) then s
    else if s.eventType == DELTA then
      var text := DeltaText(decodeDelta, DataOf(line));
      if text == "" then s else Scan(s.eventType, false, s.chunks + [Content(text, s.first)])
    else if s.eventType == STOP then s.(chunks := s.chunks + [Finish, Done])
    else s
  }

  function ScanLines(decodeDelta: string -> Option<string>, lines: seq<string>): Scan {
    if lines == [] then Scan("", true, [])
    else ScanLine(ScanLines(decodeDelta, lines[..|lines| - 1]), decodeDelta, lines[|lines| - 1])
  }

  lemma PrintedAppend(c: Codec, st: Stream, ks: seq<Chunk>, k: Chunk)
    ensures Printed(c, st, ks + [k]) == Printed(c, st, ks) + Frame(Payload(c, st, k))
  {
    assert (ks + [k])[..|ks|] == ks;
  }

  /** Each chunk is one data line and a blank line, in order. */
  lemma PrintedIs(c: Codec, st: Stream, ks: seq<Chunk>, k: Chunk)
    ensures Printed(c, st, []) == ""
    ensures Printed(c, st, ks + [k]) ==
            Printed(c, st, ks) + "data: " + (if k.Done? then "[DONE]" else c.encode(ValueOfChunk(st, k))) + "\n\n"
  {
    NothingPrinted(c, st);
    PrintedAppend(c, st, ks, k);
    hide Printed, ContentValue, FinishValue;
    var payload := Payload(c, st, k);
    assert Printed(c, st, ks) + Frame(payload) == Printed(c, st, ks) + "data: " + payload + "\n\n";
  }

  function ValueOfChunk(st: Stream, k: Chunk): Value {
    if k.Content? then ContentValue(st, k.text, k.role) else FinishValue(st)
  }

  /** A chunk in the upstream's JSON: its one choice has the text, and the role where it is named, or
      is empty and says that the answer stopped. */
  lemma ChunkSays(st: Stream, k: Chunk)
    requires !k.Done?
    ensures var v := ValueOfChunk(st, k);
            && GetString(v, "id") == Some(st.id) && GetString(v, "model") == Some(st.model)
            && GetString(v, "object") == Some("chat.completion.chunk")
            && exists choice, delta ::
                 && GetArray(v, "choices") == Some([choice])
                 && Get(choice, "index") == Some(Num(0)) && Get(choice, "delta") == Some(delta)
                 && GetString(delta, "content") == (if k.Content? then Some(k.text) else None)
                 && GetString(delta, "role") == (if k.Content? && k.role then Some("assistant") else None)
                 && Get(choice, "finish_reason") == Some(if k.Finish? then Str("stop") else Null)
  {
    var delta: map<string, Value> :=
      if k.Finish? then map[] else if k.role then map["content" := Str(k.text), "role" := Str("assistant")]
      else map["content" := Str(k.text)];
    DeltaSays(k, delta);
    EnvelopeSays(st, delta, if k.Finish? then Str("stop") else Null);
    hide ChunkValue, Get, GetString, GetArray;
  }

  lemma DeltaSays(k: Chunk, delta: map<string, Value>)
    requires !k.Done?
    requires delta == if k.Finish? then map[] else if k.role
             then map["content" := Str(k.text), "role" := Str("assistant")]
                      else map["content" := Str(k.text)]
    ensures GetString(Obj(delta), "content") == (if k.Content? then Some(k.text) else None)
    ensures GetString(Obj(delta), "role") == (if k.Content? && k.role then Some("assistant") else None)
  {
    assert "content"[0] == 'c' && "role"[0] == 'r';
  }

  lemma EnvelopeSays(st: Stream, delta: map<string, Value>, reason: Value)
    ensures var v := ChunkValue(st, delta, reason);
            && GetString(v, "id") == Some(st.id) && GetString(v, "model") == Some(st.model)
            && GetString(v, "object") == Some("chat.completion.chunk")
            && exists choice ::
                 && GetArray(v, "choices") == Some([choice])
                 && Get(choice, "index") == Some(Num(0)) && Get(choice, "delta") == Some(Obj(delta))
                 && Get(choice, "finish_reason") == Some(reason)
  {
    assert |"id"| == 2 && |"object"| == 6 && |"model"| == 5 && |"choices"| == 7;
    assert "index"[0] == 'i' && "delta"[0] == 'd' && "finish_reason"[0] == 'f';
    var v := ChunkValue(st, delta, reason);
    var choice := GetArray(v, "choices").value[0];
    assert GetArray(v, "choices") == Some([choice]);
  }

  const CLAUDE_STREAM := "chatcmpl_claude_stream_proxy"
  const GEMINI_STREAM := "chatcmpl_gemini_stream_proxy"

  /** One pass through the loop body; `chunks` is what has been written so far. */
  method ConvertLine(c: Codec, decodeDelta: string -> Option<string>, st: Stream, line: string,
                     eventType0: string, firstChunk0: bool, ghost chunks: seq<Chunk>)
    returns (eventType: string, firstChunk: bool, written: string)
    ensures var s := ScanLine(Scan(eventType0, firstChunk0, chunks), decodeDelta, line);
            eventType == s.eventType && firstChunk == s.first &&
                Printed(c, st, s.chunks) == Printed(c, st, chunks) + written
  {
    hide Payload, TrimSpace, Frame, Printed;
    eventType, firstChunk, written := eventType0, firstChunk0, "";
    assert Printed(c, st, chunks) + "" == Printed(c, st, chunks);
    if StartsWith(line, EVENT) {
      eventType := TrimSpace(line[|EVENT|..]);
    } else if StartsWith(line, DATA) {
      var payload := TrimSpace(line[|DATA|..]);
      if payload != "" && payload != "[DONE]" {
        if eventType == DELTA {
          var text := DeltaText(decodeDelta, payload);
          if text != "" {
            PrintedAppend(c, st, chunks, Content(text, firstChunk));
            written := Frame(Payload(c, st, Content(text, firstChunk)));
            firstChunk := false;
          }
        } else if eventType == STOP {
          PrintedStop(c, st, chunks);
          written := Frame(Payload(c, st, Finish)) + Frame(Payload(c, st, Done));
        }
      }
    }
  }

  lemma PrintedStop(c: Codec, st: Stream, chunks: seq<Chunk>)
    ensures Printed(c, st, chunks + [Finish, Done]) ==
            Printed(c, st, chunks) + (Frame(Payload(c, st, Finish)) + Frame(Payload(c, st, Done)))
  {
    hide Payload, Frame;
    PrintedAppend(c, st, chunks, Finish);
    PrintedAppend(c, st, chunks + [Finish], Done);
    hide Printed;
    assert chunks + [Finish] + [Done] == chunks + [Finish, Done];
  }

  /** The scanning loop over the lines that the upstream scanner delivers. */
  method ConvertClaudeStream(c: Codec, decodeDelta: string -> Option<string>, model: string, lines: seq<string>)
    returns (out: string)
    ensures out == Printed(c, Stream("chatcmpl_claude_stream_proxy", model), ScanLines(decodeDelta, lines).chunks)
  {
    hide Printed, ScanLine;
    var st := Stream(CLAUDE_STREAM, model);
    var eventType, firstChunk := "", true;
    out := "";
    NothingPrinted(c, st);
    for i := 0 to |lines|
      invariant var s := ScanLines(decodeDelta, lines[..i]);
                eventType == s.eventType && firstChunk == s.first && out == Printed(c, st, s.chunks)
    {
      assert lines[..i + 1][..i] == lines[..i];
      var written;
      eventType, firstChunk, written :=
        ConvertLine(c, decodeDelta, st, lines[i], eventType, firstChunk, ScanLines(decodeDelta, lines[..i]).chunks);
      out := out + written;
    }
    assert lines[..|lines|] == lines;
  }

  lemma NothingPrinted(c: Codec, st: Stream)
    ensures Printed(c, st, []) == ""
  {}

  // ---- what the upstream said, without the loop's state ----

  /** The event in force before line `n`: the last event line above it. */
  function EventAt(lines: seq<string>, n: nat): string
    requires n <= |lines|
  {
    if n == 0 then "" else if IsEvent(lines[n - 1]) then EventName(lines[n - 1]) else EventAt(lines, n - 1)
  }

  function DeltaAt(decodeDelta: string -> Option<string>, lines: seq<string>, i: nat): string
    requires i < |lines|
  {
    if IsData(lines[i]) && EventAt(lines, i) == DELTA then DeltaText(decodeDelta, DataOf(lines[i])) else ""
  }

  predicate StopAt(lines: seq<string>, i: nat)
    requires i < |lines|
  {
    IsData(lines[i]) && EventAt(lines, i) == STOP
  }

  /** The text deltas of the first `n` lines, concatenated. */
  function Deltas(decodeDelta: string -> Option<string>, lines: seq<string>, n: nat): string
    requires n <= |lines|
  {
    if n == 0 then "" else Deltas(decodeDelta, lines, n - 1) + DeltaAt(decodeDelta, lines, n - 1)
  }

  function Stops(lines: seq<string>, n: nat): nat
    requires n <= |lines|
  {
    if n == 0 then 0 else Stops(lines, n - 1) + (if StopAt(lines, n - 1) then 1 else 0)
  }

  function CountDone(ks: seq<Chunk>): nat {
    if ks == [] then 0 else CountDone(ks[..|ks| - 1]) + (if ks[|ks| - 1].Done? then 1 else 0)
  }

  predicate NoContent(ks: seq<Chunk>) {
    ks == [] || (NoContent(ks[..|ks| - 1]) && !ks[|ks| - 1].Content?)
  }

  /** The first content chunk, and no other, names the role; every [DONE] follows a finish. */
  predicate WellShaped(ks: seq<Chunk>) {
    ks == [] ||
    var init, last := ks[..|ks| - 1], ks[|ks| - 1];
    && WellShaped(init)
    && (last.Content? ==> last.text != "" && (last.role <==> NoContent(init)))
    && (last.Done? ==> init != [] && init[|init| - 1].Finish?)
  }

  lemma CountTextAppend(ks: seq<Chunk>, k: Chunk)
    ensures TextOf(ks + [k]) == TextOf(ks) + (if k.Content? then k.text else "")
    ensures CountDone(ks + [k]) == CountDone(ks) + (if k.Done? then 1 else 0)
  {
    assert (ks + [k])[..|ks|] == ks;
  }

  lemma ShapeAppend(ks: seq<Chunk>, k: Chunk)
    ensures NoContent(ks + [k]) <==> NoContent(ks) && !k.Content?
    ensures WellShaped(ks + [k]) <==>
              && WellShaped(ks)
              && (k.Content? ==> k.text != "" && (k.role <==> NoContent(ks)))
              && (k.Done? ==> ks != [] && ks[|ks| - 1].Finish?)
  {
    assert (ks + [k])[..|ks|] == ks;
  }

  lemma ContentKeepsShape(ks: seq<Chunk>, text: string)
    requires WellShaped(ks) && text != ""
    ensures var all := ks + [Content(text, NoContent(ks))];
            WellShaped(all) && !NoContent(all) && TextOf(all) == TextOf(ks) + text && CountDone(all) == CountDone(ks)
  {
    ShapeAppend(ks, Content(text, NoContent(ks)));
    CountTextAppend(ks, Content(text, NoContent(ks)));
  }

  lemma StopKeepsShape(ks: seq<Chunk>)
    requires WellShaped(ks)
    ensures var all := ks + [Finish, Done];
            WellShaped(all) && (NoContent(all) <==> NoContent(ks)) && TextOf(all) == TextOf(ks) &&
                CountDone(all) == CountDone(ks) + 1
  {
    assert ks + [Finish] + [Done] == ks + [Finish, Done];
    ShapeAppend(ks, Finish);
    ShapeAppend(ks + [Finish], Done);
    CountTextAppend(ks, Finish);
    CountTextAppend(ks + [Finish], Done);
  }

  /** One line's contribution. */
  lemma LineMeaning(s: Scan, decodeDelta: string -> Option<string>, line: string)
    requires WellShaped(s.chunks) && (s.first <==> NoContent(s.chunks))
    ensures var t := ScanLine(s, decodeDelta, line);
            && WellShaped(t.chunks) && (t.first <==> NoContent(t.chunks))
            && t.eventType == (if IsEvent(line) then EventName(line) else s.eventType)
            && TextOf(t.chunks) == TextOf(s.chunks) +
               (if IsData(line) && s.eventType == DELTA then DeltaText(decodeDelta, DataOf(line)) else "")
            && CountDone(t.chunks) == CountDone(s.chunks) + (if IsData(line) && s.eventType == STOP then 1 else 0)
  {
    hide EventName, DataOf, StartsWith, WellShaped, NoContent, DeltaText, TextOf, CountDone;
    assert DELTA[0] == 'c' && STOP[0] == 'm';
    assert TextOf(s.chunks) + "" == TextOf(s.chunks);
    if IsData(line) && s.eventType == DELTA && DeltaText(decodeDelta, DataOf(line)) != "" {
      ContentKeepsShape(s.chunks, DeltaText(decodeDelta, DataOf(line)));
    } else if IsData(line) && s.eventType == STOP {
      StopKeepsShape(s.chunks);
    }
  }

  /** The state after the first `n` lines, in terms of the lines alone. */
  ghost predicate Means(s: Scan, decodeDelta: string -> Option<string>, lines: seq<string>, n: nat)
    requires n <= |lines|
  {
    && s.eventType == EventAt(lines, n)
    && TextOf(s.chunks) == Deltas(decodeDelta, lines, n)
    && CountDone(s.chunks) == Stops(lines, n)
    && (s.first <==> NoContent(s.chunks))
    && WellShaped(s.chunks)
  }

  lemma MeansStep(s: Scan, decodeDelta: string -> Option<string>, lines: seq<string>, n: nat)
    requires 0 < n <= |lines| && Means(s, decodeDelta, lines, n - 1)
    ensures Means(ScanLine(s, decodeDelta, lines[n - 1]), decodeDelta, lines, n)
  {
    hide EventName, DataOf, IsEvent, IsData, WellShaped, NoContent, DeltaText, ScanLine, CountDone, TextOf;
    LineMeaning(s, decodeDelta, lines[n - 1]);
  }

  /** The converter's output in terms of the upstream lines alone. */
  lemma {:induction false} ScanMeaning(decodeDelta: string -> Option<string>, lines: seq<string>, n: nat)
    requires n <= |lines|
    ensures Means(ScanLines(decodeDelta, lines[..n]), decodeDelta, lines, n)
  {
    hide ScanLine;
    if n == 0 {
      EmptyShape();
    } else {
      hide Means, ScanLines;
      ScanMeaning(decodeDelta, lines, n - 1);
      ScanPrefix(decodeDelta, lines, n);
      MeansStep(ScanLines(decodeDelta, lines[..n - 1]), decodeDelta, lines, n);
    }
  }

  lemma ScanPrefix(decodeDelta: string -> Option<string>, lines: seq<string>, n: nat)
    requires 0 < n <= |lines|
    ensures ScanLines(decodeDelta, lines[..n]) ==
            ScanLine(ScanLines(decodeDelta, lines[..n - 1]), decodeDelta, lines[n - 1])
  {
    hide ScanLine;
    assert lines[..n][..n - 1] == lines[..n - 1];
  }

  lemma EmptyShape()
    ensures WellShaped([]) && NoContent([]) && CountDone([]) == 0
  {}

  // ---- the Gemini printer and the non-streaming bodies ----

  lemma ThreeFrames(c: Codec, st: Stream, a: Chunk, b: Chunk, d: Chunk)
    ensures Printed(c, st, [a, b, d]) == Frame(Payload(c, st, a)) + Frame(Payload(c, st, b)) + Frame(Payload(c, st, d))
  {
    hide Frame, Payload, Printed;
    NothingPrinted(c, st);
    assert [] + [a] == [a] && [a] + [b] == [a, b] && [a, b] + [d] == [a, b, d];
    PrintedAppend(c, st, [], a);
    PrintedAppend(c, st, [a], b);
    PrintedAppend(c, st, [a, b], d);
  }

  method BuildGeminiStreamResponse(c: Codec, model: string, content: string) returns (out: string)
    ensures out == Printed(c, Stream("chatcmpl_gemini_stream_proxy", model), [Content(content, true), Finish, Done])
  {
    hide ContentValue, FinishValue, Printed;
    var st := Stream(GEMINI_STREAM, model);
    var chunkBody := (c.encode)(ContentValue(st, content, true));
    var finishBody := (c.encode)(FinishValue(st));
    ThreeFrames(c, st, Content(content, true), Finish, Done);
    assert Payload(c, st, Content(content, true)) == chunkBody;
    assert Payload(c, st, Finish) == finishBody && Payload(c, st, Done) == "[DONE]";
    out := Formatted(chunkBody, finishBody);
  }

  function Formatted(chunkBody: string, finishBody: string): (s: string)
    ensures s == Frame(chunkBody) + Frame(finishBody) + Frame("[DONE]")
  {
    "data: " + chunkBody + "\n\ndata: " + finishBody + "\n\ndata: [DONE]\n\n"
  }

  datatype Part = Part(kind: string, text: string)

  function TextParts(parts: seq<Part>): string {
    if parts == [] then ""
    else TextParts(parts[..|parts| - 1]) + (if parts[|parts| - 1].kind == "text" then parts[|parts| - 1].text else "")
  }

  /** The message content of the non-streaming conversion. */
  method ClaudeBodyContent(parts: seq<Part>) returns (content: string)
    ensures content == TextParts(parts)
  {
    content := "";
    for i := 0 to |parts|
      invariant content == TextParts(parts[..i])
    {
      assert parts[..i + 1][..i] == parts[..i];
      if parts[i].kind == "text" {
        content := content + parts[i].text;
      }
    }
    assert parts[..|parts|] == parts;
  }
}
