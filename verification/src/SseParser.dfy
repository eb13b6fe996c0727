/** The debug log's reader of event streams, and what it makes of the printers' output. */
module SseParser {
  import opened Wrappers
  import opened Text
  import opened Json
  import opened Sse

  /** One trailing carriage return belongs to the line ending. */
  function StripCR(line: string): string {
    if line != "" && line[|line| - 1] == '\r' then line[..|line| - 1] else line
  }

  function StripAll(body: seq<string>): (r: seq<string>)
    ensures |r| == |body| && forall i :: 0 <= i < |body| ==> r[i] == StripCR(body[i])
  {
    seq(|body|, i requires 0 <= i < |body| => StripCR(body[i]))
  }

  /** Rust's str::lines: pieces between line feeds, the last one only if not empty. */
  function Lines(raw: string): seq<string> {
    var pieces := Split(raw, '\n');
    StripAll(if pieces[|pieces| - 1] == "" then pieces[..|pieces| - 1] else pieces)
  }

  /** Thinking text and answer text. */
  datatype Parsed = Parsed(thinking: string, content: string)

  function Plus(a: Parsed, b: Parsed): Parsed {
    Parsed(a.thinking + b.thinking, a.content + b.content)
  }

  const NOTHING := Parsed("", "")

  function PartText(part: Value): Parsed {
    var text := match GetString(part, "text") case Some(t) => t case None => "";
    var thought := Get(part, "thought") == Some(Bool(true));
    if thought then Parsed(text, "") else Parsed("", text)
  }

  function PartsText(parts: seq<Value>): Parsed {
    if parts == [] then NOTHING else Plus(PartsText(parts[..|parts| - 1]), PartText(parts[|parts| - 1]))
  }

  function CandidateText(candidate: Value): Parsed {
    match Get(candidate, "content")
    case None => NOTHING
    case Some(content) =>
      match GetArray(content, "parts")
      case None => NOTHING
      case Some(parts) => PartsText(parts)
  }

  function CandidatesText(candidates: seq<Value>): Parsed {
    if candidates == [] then NOTHING
    else Plus(CandidatesText(candidates[..|candidates| - 1]), CandidateText(candidates[|candidates| - 1]))
  }

  function ChoiceText(choice: Value): Parsed {
    match Get(choice, "delta")
    case None => NOTHING
    case Some(delta) =>
      match GetString(delta, "content")
      case None => NOTHING
      case Some(text) => Parsed("", text)
  }

  function ChoicesText(choices: seq<Value>): Parsed {
    if choices == [] then NOTHING
    else Plus(ChoicesText(choices[..|choices| - 1]), ChoiceText(choices[|choices| - 1]))
  }

  /** The Gemini shape is looked for first, then the OpenAI shape. */
  function Candidates(v: Value): Option<seq<Value>> {
    match Get(v, "response")
    case None => None
    case Some(response) => GetArray(response, "candidates")
  }

  function ValueText(v: Value): Parsed {
    match Candidates(v)
    case Some(candidates) => CandidatesText(candidates)
    case None =>
      match GetArray(v, "choices")
      case None => NOTHING
      case Some(choices) => ChoicesText(choices)
  }

  const PREFIX := "data: "

  function LineText(c: Codec, line0: string): Parsed {
    var line := TrimSpace(line0);
    if !StartsWith(line, PREFIX) then NOTHING
    else
      var json := line[|PREFIX|..];
      if json == "" || json == "[DONE]" then NOTHING
      else
        match (c.decode)(json)
        case None => NOTHING
        case Some(v) => ValueText(v)
  }

  function LinesText(c: Codec, lines: seq<string>): Parsed {
    if lines == [] then NOTHING else Plus(LinesText(c, lines[..|lines| - 1]), LineText(c, lines[|lines| - 1]))
  }

  // ---- the loops ----

  function Joined(parts: seq<string>): string {
    if parts == [] then "" else Joined(parts[..|parts| - 1]) + parts[|parts| - 1]
  }

  lemma JoinedAppend(parts: seq<string>, s: string)
    ensures Joined(parts + [s]) == Joined(parts) + s
  {
    assert (parts + [s])[..|parts|] == parts;
  }

  /** The two vectors of pieces that the loops push onto. */
  datatype Pieces = Pieces(thinking: seq<string>, content: seq<string>)

  function Joins(p: Pieces): Parsed {
    Parsed(Joined(p.thinking), Joined(p.content))
  }

  method PushPart(part: Value, p0: Pieces) returns (p: Pieces)
    ensures Joins(p) == Plus(Joins(p0), PartText(part))
  {
    p := p0;
    var text := match GetString(part, "text") case Some(t) => t case None => "";
    var isThought := Get(part, "thought") == Some(Bool(true));
    JoinedAppend(p.thinking, text);
    JoinedAppend(p.content, text);
    if text != "" {
      if isThought {
        p := p.(thinking := p.thinking + [text]);
      } else {
        p := p.(content := p.content + [text]);
      }
    }
  }

  method ReadCandidate(candidate: Value, p0: Pieces) returns (p: Pieces)
    ensures Joins(p) == Plus(Joins(p0), CandidateText(candidate))
  {
    hide Joins, PartText;
    p := p0;
    match Get(candidate, "content") {
      case None =>
      case Some(content) =>
        match GetArray(content, "parts") {
          case None =>
          case Some(parts) =>
            for i := 0 to |parts|
              invariant Joins(p) == Plus(Joins(p0), PartsText(parts[..i]))
            {
              assert parts[..i + 1][..i] == parts[..i];
              p := PushPart(parts[i], p);
            }
            assert parts[..|parts|] == parts;
        }
    }
  }

  method ReadChoice(choice: Value, p0: Pieces) returns (p: Pieces)
    ensures Joins(p) == Plus(Joins(p0), ChoiceText(choice))
  {
    p := p0;
    match Get(choice, "delta") {
      case None =>
      case Some(delta) =>
        match GetString(delta, "content") {
          case None =>
          case Some(text) =>
            JoinedAppend(p.content, text);
            if text != "" {
              p := p.(content := p.content + [text]);
            }
        }
    }
  }

  method ReadCandidates(candidates: seq<Value>, p0: Pieces) returns (p: Pieces)
    ensures Joins(p) == Plus(Joins(p0), CandidatesText(candidates))
  {
    hide Joins, CandidateText;
    p := p0;
    for i := 0 to |candidates|
      invariant Joins(p) == Plus(Joins(p0), CandidatesText(candidates[..i]))
    {
      assert candidates[..i + 1][..i] == candidates[..i];
      p := ReadCandidate(candidates[i], p);
    }
    assert candidates[..|candidates|] == candidates;
  }

  method ReadChoices(choices: seq<Value>, p0: Pieces) returns (p: Pieces)
    ensures Joins(p) == Plus(Joins(p0), ChoicesText(choices))
  {
    hide Joins, ChoiceText;
    p := p0;
    for i := 0 to |choices|
      invariant Joins(p) == Plus(Joins(p0), ChoicesText(choices[..i]))
    {
      assert choices[..i + 1][..i] == choices[..i];
      p := ReadChoice(choices[i], p);
    }
    assert choices[..|choices|] == choices;
  }

  method ReadValue(v: Value, p0: Pieces) returns (p: Pieces)
    ensures Joins(p) == Plus(Joins(p0), ValueText(v))
  {
    hide Joins, CandidatesText, ChoicesText;
    match Candidates(v) {
      case Some(candidates) =>
        p := ReadCandidates(candidates, p0);
      case None =>
        match GetArray(v, "choices") {
          case None => p := p0;
          case Some(choices) => p := ReadChoices(choices, p0);
        }
    }
  }

  method ReadLine(c: Codec, line0: string, p0: Pieces) returns (p: Pieces)
    ensures Joins(p) == Plus(Joins(p0), LineText(c, line0))
  {
    hide Joins, TrimSpace, ValueText;
    p := p0;
    var line := TrimSpace(line0);
    if StartsWith(line, PREFIX) {
      var json := line[|PREFIX|..];
      if json != "" && json != "[DONE]" {
        var decoded := (c.decode)(json);
        if decoded.Some? {
          p := ReadValue(decoded.value, p);
        }
      }
    }
  }

  method ParseSseStream(c: Codec, raw: string) returns (r: Parsed)
    ensures r == LinesText(c, Lines(raw))
  {
    hide Joins, LineText, Lines;
    var lines := Lines(raw);
    var p := Pieces([], []);
    NoPieces();
    for i := 0 to |lines|
      invariant Joins(p) == LinesText(c, lines[..i])
    {
      assert lines[..i + 1][..i] == lines[..i];
      p := ReadLine(c, lines[i], p);
    }
    assert lines[..|lines|] == lines;
    r := Result(p);
  }

  lemma NoPieces()
    ensures Joins(Pieces([], [])) == NOTHING
  {}

  method Result(p: Pieces) returns (r: Parsed)
    ensures r == Joins(p)
  {
    r := Parsed(Joined(p.thinking), Joined(p.content));
  }

  // ---- reading the other shape ----

  /** One part of a Gemini answer: a thought, or not; with a text, or without one, as a call has. */
  datatype Spoken = Spoken(thought: bool, text: Option<string>)

  function PartValue(p: Spoken): Value {
    Obj((if p.thought then map["thought" := Bool(true)] else map[])
        + (if p.text.Some? then map["text" := Str(p.text.value)] else map[]))
  }

  function PartValues(ps: seq<Spoken>): (vs: seq<Value>)
    ensures |vs| == |ps| && forall i :: 0 <= i < |ps| ==> vs[i] == PartValue(ps[i])
  {
    seq(|ps|, i requires 0 <= i < |ps| => PartValue(ps[i]))
  }

  function CandidateValue(ps: seq<Spoken>): Value {
    Obj(map["content" := Obj(map["parts" := Arr(PartValues(ps))])])
  }

  function CandidateValues(answers: seq<seq<Spoken>>): (vs: seq<Value>)
    ensures |vs| == |answers| && forall i :: 0 <= i < |answers| ==> vs[i] == CandidateValue(answers[i])
  {
    seq(|answers|, i requires 0 <= i < |answers| => CandidateValue(answers[i]))
  }

  function ResponseValue(answers: seq<seq<Spoken>>): Value {
    Obj(map["response" := Obj(map["candidates" := Arr(CandidateValues(answers))])])
  }

  /** The thoughts among the parts, or the rest, one after the other. */
  function Said(ps: seq<Spoken>, thought: bool): string {
    if ps == [] then ""
    else Said(ps[..|ps| - 1], thought) + (if ps[|ps| - 1].thought == thought then ps[|ps| - 1].text.GetOr("") else "")
  }

  function AllSaid(answers: seq<seq<Spoken>>, thought: bool): string {
    if answers == [] then "" else AllSaid(answers[..|answers| - 1], thought) + Said(answers[|answers| - 1], thought)
  }

  lemma PartReads(p: Spoken)
    ensures PartText(PartValue(p)) == if p.thought then Parsed(p.text.GetOr(""), "") else Parsed("", p.text.GetOr(""))
  {
    assert |"text"| == 4 && |"thought"| == 7;
  }

  lemma {:induction false} PartsRead(ps: seq<Spoken>)
    ensures PartsText(PartValues(ps)) == Parsed(Said(ps, true), Said(ps, false))
  {
    hide PartText, PartValue;
    if ps != [] {
      var n := |ps| - 1;
      PartsRead(ps[..n]);
      PartReads(ps[n]);
      assert PartValues(ps)[..n] == PartValues(ps[..n]);
    }
  }

  lemma CandidateReads(ps: seq<Spoken>)
    ensures CandidateText(CandidateValue(ps)) == Parsed(Said(ps, true), Said(ps, false))
  {
    PartsRead(ps);
    hide PartsText, Said;
    var content := Obj(map["parts" := Arr(PartValues(ps))]);
    assert Get(CandidateValue(ps), "content") == Some(content);
    assert GetArray(content, "parts") == Some(PartValues(ps));
  }

  lemma {:induction false} CandidatesRead(answers: seq<seq<Spoken>>)
    ensures CandidatesText(CandidateValues(answers)) == Parsed(AllSaid(answers, true), AllSaid(answers, false))
  {
    hide CandidateText, CandidateValue, Said;
    if answers != [] {
      var n := |answers| - 1;
      CandidatesRead(answers[..n]);
      CandidateReads(answers[n]);
      assert CandidateValues(answers)[..n] == CandidateValues(answers[..n]);
    }
  }

  /** A data line is read as what its payload decodes to, and nothing where it does not decode or is
      the end mark; any other line is passed over. */
  lemma LineReads(c: Codec, json: string)
    requires json != "" && !IsSpace(json[|json| - 1])
    ensures LineText(c, "data: " + json) ==
            if json == "[DONE]" || (c.decode)(json).None? then NOTHING else ValueText((c.decode)(json).value)
    ensures forall line: string :: !StartsWith(TrimSpace(line), "data: ") ==> LineText(c, line) == NOTHING
  {
    var line := "data: " + json;
    assert line[0] == 'd' && line[|line| - 1] == json[|json| - 1];
    TrimSpaceFixed(line);
    assert line[..6] == "data: " && line[6..] == json;
    hide TrimSpace, ValueText;
  }

  /** A Gemini answer, however it is cut into candidates and parts, is read as its thoughts and its
      text, each in order. */
  lemma GeminiReadsBack(answers: seq<seq<Spoken>>)
    ensures ValueText(ResponseValue(answers)) == Parsed(AllSaid(answers, true), AllSaid(answers, false))
  {
    CandidatesRead(answers);
    hide CandidatesText, AllSaid;
    var response := Obj(map["candidates" := Arr(CandidateValues(answers))]);
    assert Get(ResponseValue(answers), "response") == Some(response);
    assert GetArray(response, "candidates") == Some(CandidateValues(answers));
  }

  // ---- reading back what the printers wrote ----

  lemma ContentReadsBack(st: Stream, text: string, role: bool)
    ensures ValueText(ContentValue(st, text, role)) == Parsed("", text)
  {
    var delta := if role then map["content" := Str(text), "role" := Str("assistant")] else map["content" := Str(text)];
    ChoicesOfChunk(st, delta, Null);
    assert "content" != "role";
    assert GetString(Obj(delta), "content") == Some(text);
  }

  lemma FinishReadsBack(st: Stream)
    ensures ValueText(FinishValue(st)) == NOTHING
  {
    ChoicesOfChunk(st, map[], Str("stop"));
  }

  lemma ChoicesOfChunk(st: Stream, delta: map<string, Value>, reason: Value)
    ensures ValueText(ChunkValue(st, delta, reason)) ==
            (match GetString(Obj(delta), "content") case None => NOTHING case Some(text) => Parsed("", text))
  {
    var choice := Obj(map["index" := Num(0), "delta" := Obj(delta), "finish_reason" := reason]);
    var v := ChunkValue(st, delta, reason);
    assert |"id"| == 2 && |"object"| == 6 && |"model"| == 5 && |"choices"| == 7 && |"response"| == 8;
    assert Get(v, "response") == None;
    assert Get(v, "choices") == Some(Arr([choice]));
    assert |"index"| == 5 && |"delta"| == 5 && "index"[0] == 'i' && "delta"[0] == 'd' && |"finish_reason"| == 13;
    assert Get(choice, "delta") == Some(Obj(delta));
    assert [choice][..0] == [];
    assert ChoicesText([choice]) == Plus(ChoicesText([]), ChoiceText(choice));
  }

  lemma FrameText(c: Codec, st: Stream, k: Chunk)
    requires Lawful(c)
    ensures var x := Payload(c, st, k);
            && x != "" && '\n' !in x && x[|x| - 1] != '\r'
            && LineText(c, "data: " + x) == if k.Content? then Parsed("", k.text) else NOTHING
  {
    hide ContentValue, FinishValue, ValueText;
    var x := Payload(c, st, k);
    match k {
      case Content(text, role) => assert Faithful(c, ContentValue(st, text, role)); ContentReadsBack(st, text, role);
      case Finish => assert Faithful(c, FinishValue(st)); FinishReadsBack(st);
      case Done =>
    }
    var line := "data: " + x;
    assert line[0] == 'd' && line[|line| - 1] == x[|x| - 1];
    TrimSpaceFixed(line);
    assert line[6..] == x;
  }

  lemma SplitFrame(payload: string, rest: string)
    requires '\n' !in payload
    ensures Split(Frame(payload) + rest, '\n') == ["data: " + payload, ""] + Split(rest, '\n')
  {
    var line := "data: " + payload;
    var tail := "" + ['\n'] + rest;
    assert Frame(payload) + rest == line + ['\n'] + tail;
    SplitCons(line, tail, '\n');
    SplitCons("", rest, '\n');
    hide *;
    assert [line] + ([""] + Split(rest, '\n')) == [line, ""] + Split(rest, '\n');
  }

  lemma LinesOfFrame(payload: string, rest: string)
    requires payload != "" && '\n' !in payload && payload[|payload| - 1] != '\r'
    ensures Lines(Frame(payload) + rest) == ["data: " + payload, ""] + Lines(rest)
  {
    SplitFrame(payload, rest);
    var two := ["data: " + payload, ""];
    var pieces := Split(rest, '\n');
    assert StripCR(two[0]) == two[0] && StripCR(two[1]) == two[1];
    assert (two + pieces)[..|two + pieces| - 1] == two + pieces[..|pieces| - 1];
    hide Split, Frame, StripCR;
    assert StripAll(two) == two;
    StripJoin(two, pieces);
    StripJoin(two, pieces[..|pieces| - 1]);
  }

  lemma StripJoin(a: seq<string>, b: seq<string>)
    ensures StripAll(a + b) == StripAll(a) + StripAll(b)
  {
    hide StripCR;
  }

  lemma {:induction false} LinesTextJoin(c: Codec, a: seq<string>, b: seq<string>)
    ensures LinesText(c, a + b) == Plus(LinesText(c, a), LinesText(c, b))
    decreases |b|
  {
    hide LineText;
    if b == [] {
      assert a + b == a;
    } else {
      assert (a + b)[..|a + b| - 1] == a + b[..|b| - 1];
      LinesTextJoin(c, a, b[..|b| - 1]);
    }
  }

  function FramesFrom(c: Codec, st: Stream, ks: seq<Chunk>): string {
    if ks == [] then "" else Frame(Payload(c, st, ks[0])) + FramesFrom(c, st, ks[1..])
  }

  lemma {:induction false} PrintedFromFront(c: Codec, st: Stream, ks: seq<Chunk>)
    ensures Printed(c, st, ks) == FramesFrom(c, st, ks)
    decreases |ks|
  {
    hide Payload, Frame;
    if |ks| > 1 {
      var n := |ks| - 1;
      PrintedFromFront(c, st, ks[..n]);
      PrintedFromFront(c, st, ks[1..]);
      PrintedFromFront(c, st, ks[1..][..n - 1]);
      assert ks[..n][1..] == ks[1..][..n - 1];
      assert ks[1..][n - 1] == ks[n];
    } else if |ks| == 1 {
      assert ks[..0] == [] && ks[1..] == [];
    }
  }

  lemma {:induction false} TextFromFront(ks: seq<Chunk>)
    requires ks != []
    ensures TextOf(ks) == (if ks[0].Content? then ks[0].text else "") + TextOf(ks[1..])
  {
    if |ks| > 1 {
      TextFromFront(ks[..|ks| - 1]);
      assert ks[..|ks| - 1][1..] == ks[1..][..|ks| - 2];
    }
  }

  function ChunkText(k: Chunk): string {
    if k.Content? then k.text else ""
  }

  lemma FirstFrame(c: Codec, st: Stream, k: Chunk, rest: string)
    requires Lawful(c)
    ensures LinesText(c, Lines(Frame(Payload(c, st, k)) + rest)) ==
            Plus(Parsed("", ChunkText(k)), LinesText(c, Lines(rest)))
  {
    var x := Payload(c, st, k);
    FrameText(c, st, k);
    assert LineText(c, "data: " + x) == Parsed("", ChunkText(k));
    LinesOfFrame(x, rest);
    LinesTextJoin(c, ["data: " + x, ""], Lines(rest));
    TwoLines(c, "data: " + x);
    hide *;
  }

  /** Reading printed chunks gives back their text, all of it as answer text. */
  lemma {:induction false} ParsePrinted(c: Codec, st: Stream, ks: seq<Chunk>)
    requires Lawful(c)
    ensures LinesText(c, Lines(FramesFrom(c, st, ks))) == Parsed("", TextOf(ks))
    decreases |ks|
  {
    hide Payload, Frame, Lawful, LinesText, TextOf;
    if ks == [] {
      NoLines(c);
    } else {
      ParsePrinted(c, st, ks[1..]);
      FirstFrame(c, st, ks[0], FramesFrom(c, st, ks[1..]));
      TextFromFront(ks);
      hide Lines;
    }
  }

  lemma NoLines(c: Codec)
    ensures LinesText(c, Lines("")) == Parsed("", TextOf([]))
  {
    hide LineText;
    assert Lines("") == [];
  }

  lemma TwoLines(c: Codec, line: string)
    ensures LinesText(c, [line, ""]) == LineText(c, line)
  {
    assert [line, ""][..1] == [line] && [line][..0] == [];
    assert LineText(c, "") == NOTHING;
    hide LineText;
    assert LinesText(c, [line]) == Plus(LinesText(c, []), LineText(c, line));
    assert LinesText(c, [line, ""]) == Plus(LinesText(c, [line]), NOTHING);
  }

  /** The converter and the parser: reading the converted stream of any upstream lines gives the
      concatenation of their deltas. */
  lemma ClaudeStreamReadsBack(c: Codec, decodeDelta: string -> Option<string>, model: string, lines: seq<string>)
    requires Lawful(c)
    ensures var out := Printed(c, Stream(CLAUDE_STREAM, model), ScanLines(decodeDelta, lines).chunks);
            LinesText(c, Lines(out)) == Parsed("", Deltas(decodeDelta, lines, |lines|))
  {
    hide Lawful;
    var st := Stream(CLAUDE_STREAM, model);
    var ks := ScanLines(decodeDelta, lines).chunks;
    ScanMeaning(decodeDelta, lines, |lines|);
    assert lines[..|lines|] == lines;
    ParsePrinted(c, st, ks);
    PrintedFromFront(c, st, ks);
  }

  /** The Gemini printer and the parser are inverse on content. */
  lemma GeminiStreamReadsBack(c: Codec, model: string, content: string)
    requires Lawful(c)
    ensures LinesText(c, Lines(Printed(c, Stream(GEMINI_STREAM, model), [Content(content, true), Finish, Done]))) ==
            Parsed("", content)
  {
    hide Lawful, Printed, FramesFrom;
    var ks := [Content(content, true), Finish, Done];
    ParsePrinted(c, Stream(GEMINI_STREAM, model), ks);
    PrintedFromFront(c, Stream(GEMINI_STREAM, model), ks);
    assert ks[1..] == [Finish, Done] && ks[1..][1..] == [Done] && ks[1..][1..][1..] == [];
    TextFromFront(ks);
    TextFromFront(ks[1..]);
    TextFromFront(ks[1..][1..]);
  }
}
