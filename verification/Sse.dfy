/**
 * The chat client's decoding of event streams that arrive in chunks.
 *
 * A simplified form of sections 9.2.5 and 9.2.6 of the WHATWG HTML Standard. Chunks are taken as text,
 * already decoded; parsing one JSON document is a parameter.
 */
module Sse {
  import opened Text

  // ---------------------------------------------------------------- JSON values

  datatype Json =
    | Null
    | Bool(b: bool)
    | Number(text: string)
    | Str(s: string)
    | Arr(items: seq<Json>)
    | Obj(fields: map<string, Json>)
  {
    /** Indexing by key: anything absent is null. */
    function Get(key: string): Json {
      if Obj? && key in fields then fields[key] else Null
    }

    function At(i: nat): Json {
      if Arr? && i < |items| then items[i] else Null
    }

    function AsStr(): Option<string> {
      if Str? then Some(s) else None
    }

    function AsArray(): seq<Json> {
      if Arr? then items else []
    }
  }

  type Parser = string -> Option<Json>

  // ---------------------------------------------------------------- what is sent to the interface

  datatype Message = Text(text: string) | Done | Error(text: string) | ResponseId(text: string) {
    predicate Terminal() {
      Done? || Error?
    }
  }

  /** How the byte stream ends: closed, or broken off with an error. */
  datatype Ending = Closed | Broken(error: string)

  function Final(ending: Ending): Message {
    if ending.Closed? then Done else Error(ending.error)
  }

  // ---------------------------------------------------------------- lines

  function IndexOf(s: string, c: char): (i: nat)
    requires c in s
    ensures i < |s| && s[i] == c && c !in s[..i]
  {
    if s[0] == c then 0 else
      assert s == [s[0]] + s[1..];
      var i := 1 + IndexOf(s[1..], c);
      assert s[..i] == [s[0]] + s[1..][..i - 1];
      i
  }

  /** The complete lines of a text: what follows its last newline is not one. */
  function Lines(text: string): seq<string> {
    if '\n' !in text then []
    else [text[..IndexOf(text, '\n')]] + Lines(text[IndexOf(text, '\n') + 1..])
  }

  lemma FirstLine(line: string, rest: string)
    requires '\n' !in line
    ensures Lines(line + "\n" + rest) == [line] + Lines(rest)
  {
    var text := line + "\n" + rest;
    assert text[|line|] == '\n';
    var i := IndexOf(text, '\n');
    assert forall j :: 0 <= j < |line| ==> text[j] == line[j];
    assert forall j :: 0 <= j < i ==> text[..i][j] == text[j];
    assert text[..i] == line && text[i + 1..] == rest;
  }

  /** The text that the chunks from index `n` on add up to. */
  function Joined(chunks: seq<string>, n: nat): string
    decreases |chunks| - n
  {
    if n >= |chunks| then "" else chunks[n] + Joined(chunks, n + 1)
  }

  /** The unterminated tail of a text never counts. */
  lemma {:induction false} TailIgnored(text: string, tail: string)
    requires '\n' !in tail
    ensures Lines(text + "\n" + tail) == Lines(text + "\n")
    decreases |text|
  {
    if '\n' in text {
      var i := IndexOf(text, '\n');
      var line, rest := text[..i], text[i + 1..];
      assert text + "\n" + tail == line + "\n" + (rest + "\n" + tail);
      assert text + "\n" == line + "\n" + (rest + "\n");
      FirstLine(line, rest + "\n" + tail);
      FirstLine(line, rest + "\n");
      TailIgnored(rest, tail);
    } else {
      FirstLine(text, tail);
      FirstLine(text, "");
      assert text + "\n" + "" == text + "\n";
    }
  }

  // ---------------------------------------------------------------- decoding

  datatype LineResult = Continue(sent: seq<Message>) | Stop(sent: seq<Message>)

  /** How a line is handled: what it sends, whether it ends the stream, and what is remembered. */
  type LineHandler<!S> = (S, string) -> (S, LineResult)

  /** One pass over complete lines, cut at the first terminal event. */
  function Decode<S>(handle: LineHandler<S>, st: S, lines: seq<string>, ending: Ending): seq<Message>
    decreases |lines|
  {
    if lines == [] then [Final(ending)]
    else
      var (next, r) := handle(st, lines[0]);
      if r.Stop? then r.sent else r.sent + Decode(handle, next, lines[1..], ending)
  }

  lemma DecodeFirstLine<S>(handle: LineHandler<S>, st: S, line: string, rest: string, ending: Ending)
    requires '\n' !in line
    ensures var (next, r) := handle(st, line);
            Decode(handle, st, Lines(line + "\n" + rest), ending)
            == if r.Stop? then r.sent else r.sent + Decode(handle, next, Lines(rest), ending)
  {
    FirstLine(line, rest);
  }

  /** What the stream sends for the text it has left. */
  type Meaning<!S> = (S, string) -> seq<Message>

  function DecodeText<S>(handle: LineHandler<S>, ending: Ending): Meaning<S> {
    (st: S, text: string) => Decode(handle, st, Lines(text), ending)
  }

  /** A complete first line is handled, and the rest follows unless that line ended the stream. */
  ghost predicate LineByLine<S(!new)>(handle: LineHandler<S>, meaning: Meaning<S>) {
    forall st, line: string, rest: string :: '\n' !in line ==> Unrolls(handle, meaning, st, line, rest)
  }

  predicate Unrolls<S>(handle: LineHandler<S>, meaning: Meaning<S>, st: S, line: string, rest: string) {
    var (next, r) := handle(st, line);
    meaning(st, line + "\n" + rest) == if r.Stop? then r.sent else r.sent + meaning(next, rest)
  }

  lemma DecodesLineByLine<S(!new)>(handle: LineHandler<S>, ending: Ending)
    ensures LineByLine(handle, DecodeText(handle, ending))
    ensures forall st, buffer: string :: '\n' !in buffer ==> DecodeText(handle, ending)(st, buffer) == [Final(ending)]
  {
    forall st, line: string, rest: string | '\n' !in line
      ensures Unrolls(handle, DecodeText(handle, ending), st, line, rest)
    {
      DecodeFirstLine(handle, st, line, rest, ending);
    }
  }

  /** Handles the complete lines of the buffer; `later` is what the stream will bring after it. */
  method Drain<S(!new)>(handle: LineHandler<S>, start: S, input: string, ghost later: string, ghost meaning: Meaning<S>)
    returns (st: S, buffer: string, sent: seq<Message>, stop: bool)
    requires LineByLine(handle, meaning)
    ensures !stop ==> '\n' !in buffer
    ensures meaning(start, input + later) == if stop then sent else sent + meaning(st, buffer + later)
  {
    st, buffer, sent, stop := start, input, [], false;
    while '\n' in buffer
      invariant meaning(start, input + later) == sent + meaning(st, buffer + later)
      decreases |buffer|
    {
      var pos := IndexOf(buffer, '\n');
      var line, rest := buffer[..pos], buffer[pos + 1..];
      assert buffer + later == line + "\n" + (rest + later);
      assert Unrolls(handle, meaning, st, line, rest + later);
      var (next, r) := handle(st, line);
      Regroup(sent, r.sent, meaning(next, rest + later));
      st, buffer, sent := next, rest, sent + r.sent;
      if r.Stop? {
        stop := true;
        return;
      }
    }
  }

  method Consume<S(!new)>(handle: LineHandler<S>, start: S, chunks: seq<string>, ghost meaning: Meaning<S>,
                          ending: Ending) returns (sent: seq<Message>)
    requires LineByLine(handle, meaning)
    requires forall st, buffer: string :: '\n' !in buffer ==> meaning(st, buffer) == [Final(ending)]
    ensures sent == meaning(start, Joined(chunks, 0))
  {
    sent := [];
    var st, buffer := start, "";
    ghost var all := meaning(start, Joined(chunks, 0));
    assert "" + Joined(chunks, 0) == Joined(chunks, 0);
    for n := 0 to |chunks|
      invariant '\n' !in buffer
      invariant all == sent + meaning(st, buffer + Joined(chunks, n))
    {
      ghost var later := Joined(chunks, n + 1);
      Regroup(buffer, chunks[n], later);
      var next, rest, more, stop := Drain(handle, st, buffer + chunks[n], later, meaning);
      Regroup(sent, more, meaning(next, rest + later));
      st, buffer, sent := next, rest, sent + more;
      if stop {
        return;
      }
    }
    assert buffer + "" == buffer;
    sent := sent + [Final(ending)];
  }

  /** The streaming loop: what it sends depends on the text alone, however it was cut into chunks. */
  method DecodeStream<S(!new)>(handle: LineHandler<S>, start: S, chunks: seq<string>, ending: Ending)
    returns (sent: seq<Message>)
    ensures sent == Decode(handle, start, Lines(Joined(chunks, 0)), ending)
  {
    DecodesLineByLine(handle, ending);
    sent := Consume(handle, start, chunks, DecodeText(handle, ending), ending);
  }

  /** What comes of sending the request: an error, or a stream of chunks. */
  datatype Request = Failed(error: string) | Opened(chunks: seq<string>, ending: Ending)

  /** What is sent for a request: its error, or what the text of its stream decodes to. */
  function Streamed<S>(handle: LineHandler<S>, start: S, request: Request): seq<Message> {
    match request
    case Failed(error) => [Error(error)]
    case Opened(chunks, ending) => Decode(handle, start, Lines(Joined(chunks, 0)), ending)
  }

  // ---------------------------------------------------------------- chat completions

  const DATA := "data: "

  function ChatLine(parse: Parser, raw: string): LineResult {
    var line := Trim(raw);
    if line == "data: [DONE]" then Stop([Done])
    else if StartsWith(line, DATA) && parse(line[|DATA|..]).Some? then
      var parsed := parse(line[|DATA|..]).value;
      var err := parsed.Get("error").Get("message").AsStr();
      var delta := parsed.Get("choices").At(0).Get("delta").Get("content").AsStr();
      if err.Some? then Stop([Error(err.value)])
      else if delta.Some? then Continue([Text(delta.value)])
      else Continue([])
    else Continue([])
  }

  function ChatHandler(parse: Parser): LineHandler<()> {
    (_, line) => ((), ChatLine(parse, line))
  }

  method ProcessSseStream(parse: Parser, chunks: seq<string>, ending: Ending) returns (sent: seq<Message>)
    ensures sent == Decode(ChatHandler(parse), (), Lines(Joined(chunks, 0)), ending)
  {
    sent := DecodeStream(ChatHandler(parse), (), chunks, ending);
  }

  method StreamChatCompletions(parse: Parser, request: Request) returns (sent: seq<Message>)
    ensures sent == Streamed(ChatHandler(parse), (), request)
  {
    match request
    case Failed(error) =>
      sent := [Error(error)];
    case Opened(chunks, ending) =>
      sent := ProcessSseStream(parse, chunks, ending);
  }

  // ---------------------------------------------------------------- responses

  /** What a line of a Responses stream means. */
  datatype ResponsesEvent =
    | Nothing
    | DoneMarker
    | Created(id: string)
    | Delta(text: string)
    | Completed(texts: seq<string>)

  function TextsOf(contents: seq<Json>): seq<string> {
    if contents == [] then []
    else
      var text := contents[0].Get("text").AsStr();
      (if text.Some? then [text.value] else []) + TextsOf(contents[1..])
  }

  function OutputTexts(outputs: seq<Json>): seq<string> {
    if outputs == [] then [] else TextsOf(outputs[0].Get("content").AsArray()) + OutputTexts(outputs[1..])
  }

  function EventOf(parse: Parser, raw: string): ResponsesEvent {
    var line := Trim(raw);
    if line == "data: [DONE]" then DoneMarker
    else if StartsWith(line, DATA) && parse(line[|DATA|..]).Some? then
      var parsed := parse(line[|DATA|..]).value;
      var kind := parsed.Get("type").AsStr();
      var id := parsed.Get("response").Get("id").AsStr();
      var delta := parsed.Get("delta").AsStr();
      if kind == Some("response.created") then
        if id.Some? then Created(id.value) else Nothing
      else if kind == Some("response.output_text.delta") then
        if delta.Some? then Delta(delta.value) else Nothing
      else if kind == Some("response.completed") || kind == Some("response.done") then
        Completed(OutputTexts(parsed.Get("response").Get("output").AsArray()))
      else Nothing
    else Nothing
  }

  function AsTexts(texts: seq<string>): seq<Message> {
    seq(|texts|, i requires 0 <= i < |texts| => Text(texts[i]))
  }

  /** The texts of the completed event are sent only if no delta was. */
  function OnResponsesEvent(gotDeltas: bool, e: ResponsesEvent): (bool, LineResult) {
    match e
    case Nothing => (gotDeltas, Continue([]))
    case DoneMarker => (gotDeltas, Stop([Done]))
    case Created(id) => (gotDeltas, Continue([ResponseId(id)]))
    case Delta(text) => (true, Continue([Text(text)]))
    case Completed(texts) => (gotDeltas, Stop((if gotDeltas then [] else AsTexts(texts)) + [Done]))
  }

  /** `read` tells what a line means; for a real stream it is `Reader` of the JSON parser. */
  function ResponsesHandler(read: string -> ResponsesEvent): LineHandler<bool> {
    (gotDeltas, line) => OnResponsesEvent(gotDeltas, read(line))
  }

  function Reader(parse: Parser): string -> ResponsesEvent {
    line => EventOf(parse, line)
  }

  method StreamResponses(parse: Parser, request: Request) returns (sent: seq<Message>)
    ensures sent == Streamed(ResponsesHandler(Reader(parse)), false, request)
  {
    match request
    case Failed(error) =>
      sent := [Error(error)];
    case Opened(chunks, ending) =>
      sent := DecodeStream(ResponsesHandler(Reader(parse)), false, chunks, ending);
  }

  // ---------------------------------------------------------------- one terminal signal, at the end

  predicate EndsOnce(sent: seq<Message>) {
    && sent != [] && sent[|sent| - 1].Terminal()
    && forall i :: 0 <= i < |sent| - 1 ==> !sent[i].Terminal()
  }

  /** A handler that stops with a terminal message and sends none before. */
  ghost predicate StopsProperly<S(!new)>(handle: LineHandler<S>) {
    forall st, line :: ProperResult(handle(st, line).1)
  }

  predicate ProperResult(r: LineResult) {
    if r.Stop? then EndsOnce(r.sent) else forall i :: 0 <= i < |r.sent| ==> !r.sent[i].Terminal()
  }

  lemma {:induction false} DecodeEndsOnce<S(!new)>(handle: LineHandler<S>, st: S, lines: seq<string>, ending: Ending)
    requires StopsProperly(handle)
    ensures EndsOnce(Decode(handle, st, lines, ending))
    decreases |lines|
  {
    if lines == [] {
    } else {
      var (next, r) := handle(st, lines[0]);
      assert handle(st, lines[0]).1 == r;
      DecodeEndsOnce(handle, next, lines[1..], ending);
    }
  }

  /** Both streams send exactly one terminal signal, as their last message, on every input. */
  lemma ChatLineEndsOnce(parse: Parser, raw: string)
    ensures ProperResult(ChatLine(parse, raw))
  {
  }

  lemma ChatEndsOnce(parse: Parser, request: Request)
    ensures EndsOnce(Streamed(ChatHandler(parse), (), request))
  {
    var handle := ChatHandler(parse);
    forall st, line
      ensures ProperResult(handle(st, line).1)
    {
      ChatLineEndsOnce(parse, line);
    }
    if request.Opened? {
      DecodeEndsOnce(handle, (), Lines(Joined(request.chunks, 0)), request.ending);
    }
  }

  lemma ResponsesEventEndsOnce(gotDeltas: bool, e: ResponsesEvent)
    ensures ProperResult(OnResponsesEvent(gotDeltas, e).1)
  {
  }

  lemma ResponsesEndsOnce(read: string -> ResponsesEvent, request: Request)
    ensures EndsOnce(Streamed(ResponsesHandler(read), false, request))
  {
    var handle := ResponsesHandler(read);
    forall gotDeltas, line
      ensures ProperResult(handle(gotDeltas, line).1)
    {
      ResponsesEventEndsOnce(gotDeltas, read(line));
    }
    if request.Opened? {
      DecodeEndsOnce(handle, false, Lines(Joined(request.chunks, 0)), request.ending);
    }
  }

  // ---------------------------------------------------------------- whose text is shown

  /** The texts among the messages, in order. */
  function TextIn(sent: seq<Message>): seq<string> {
    if sent == [] then [] else (if sent[0].Text? then [sent[0].text] else []) + TextIn(sent[1..])
  }

  predicate Ends(e: ResponsesEvent) {
    e.DoneMarker? || e.Completed?
  }

  function Read(read: string -> ResponsesEvent, lines: seq<string>): seq<ResponsesEvent> {
    if lines == [] then [] else [read(lines[0])] + Read(read, lines[1..])
  }

  /** What a Responses stream sends, from what its lines mean. */
  function Respond(gotDeltas: bool, events: seq<ResponsesEvent>, ending: Ending): seq<Message>
    decreases |events|
  {
    if events == [] then [Final(ending)]
    else
      var (next, r) := OnResponsesEvent(gotDeltas, events[0]);
      if r.Stop? then r.sent else r.sent + Respond(next, events[1..], ending)
  }

  lemma {:induction false} DecodeResponds(read: string -> ResponsesEvent, gotDeltas: bool, lines: seq<string>,
                                          ending: Ending)
    ensures Decode(ResponsesHandler(read), gotDeltas, lines, ending) == Respond(gotDeltas, Read(read, lines), ending)
    decreases |lines|
  {
    if lines == [] {
    } else {
      DecodeResponds(read, OnResponsesEvent(gotDeltas, read(lines[0])).0, lines[1..], ending);
    }
  }

  /** The deltas before the first event that ends the stream. */
  function Deltas(events: seq<ResponsesEvent>): seq<string> {
    if events == [] || Ends(events[0]) then []
    else (if events[0].Delta? then [events[0].text] else []) + Deltas(events[1..])
  }

  /** The texts of the event that ends the stream, if it is a completed event. */
  function CompletedTexts(events: seq<ResponsesEvent>): seq<string> {
    if events == [] then []
    else if events[0].Completed? then events[0].texts
    else if Ends(events[0]) then [] else CompletedTexts(events[1..])
  }

  lemma {:induction false} TextInAppend(a: seq<Message>, b: seq<Message>)
    ensures TextIn(a + b) == TextIn(a) + TextIn(b)
  {
    if a == [] {
      assert a + b == b;
    } else {
      assert (a + b)[1..] == a[1..] + b;
      TextInAppend(a[1..], b);
    }
  }

  lemma {:induction false} TextInTexts(texts: seq<string>)
    ensures TextIn(AsTexts(texts)) == texts
  {
    if texts == [] {
    } else {
      assert AsTexts(texts)[1..] == AsTexts(texts[1..]);
      TextInTexts(texts[1..]);
    }
  }

  lemma ResponsesLineText(gotDeltas: bool, e: ResponsesEvent)
    ensures var r := OnResponsesEvent(gotDeltas, e).1;
            TextIn(r.sent) == if e.Delta? then [e.text] else if e.Completed? && !gotDeltas then e.texts else []
  {
    if e.Completed? && !gotDeltas {
      TextInAppend(AsTexts(e.texts), [Done]);
      TextInTexts(e.texts);
      assert TextIn([Done]) == [];
    }
  }

  lemma RespondStep(gotDeltas: bool, events: seq<ResponsesEvent>, ending: Ending)
    requires events != []
    ensures TextIn(Respond(gotDeltas, events, ending))
            == if Ends(events[0]) then if events[0].Completed? && !gotDeltas then events[0].texts else []
               else if events[0].Delta? then [events[0].text] + TextIn(Respond(true, events[1..], ending))
               else TextIn(Respond(gotDeltas, events[1..], ending))
  {
    var (next, r) := OnResponsesEvent(gotDeltas, events[0]);
    ResponsesLineText(gotDeltas, events[0]);
    if !Ends(events[0]) {
      TextInAppend(r.sent, Respond(next, events[1..], ending));
    }
  }

  lemma NoText(ending: Ending)
    ensures TextIn([Final(ending)]) == []
  {
  }

  lemma {:induction false} RespondTextAfterDelta(events: seq<ResponsesEvent>, ending: Ending)
    ensures TextIn(Respond(true, events, ending)) == Deltas(events)
  {
    if events == [] {
      NoText(ending);
    } else {
      RespondStep(true, events, ending);
      RespondTextAfterDelta(events[1..], ending);
    }
  }

  lemma {:induction false} RespondText(events: seq<ResponsesEvent>, ending: Ending)
    ensures TextIn(Respond(false, events, ending))
            == if Deltas(events) != [] then Deltas(events) else CompletedTexts(events)
  {
    if events == [] {
      NoText(ending);
    } else {
      RespondStep(false, events, ending);
      RespondTextAfterDelta(events[1..], ending);
      RespondText(events[1..], ending);
    }
  }

  /** The text shown is that of the deltas, or if there were none that of the completed event: never both. */
  lemma ResponsesText(read: string -> ResponsesEvent, lines: seq<string>, ending: Ending)
    ensures var events := Read(read, lines);
            TextIn(Decode(ResponsesHandler(read), false, lines, ending))
            == if Deltas(events) != [] then Deltas(events) else CompletedTexts(events)
  {
    DecodeResponds(read, false, lines, ending);
    RespondText(Read(read, lines), ending);
  }

  // ---------------------------------------------------------------- printing and decoding a chat stream

  /** Printing this document is undone by parsing, and prints one line without outer whitespace. */
  ghost predicate Encodes(encode: Json -> string, parse: Parser, j: Json) {
    parse(encode(j)) == Some(j) && '\n' !in encode(j) && Trimmed(encode(j))
  }

  /** The end marker and the empty text are no JSON. */
  predicate RejectsMarkers(parse: Parser) {
    parse("[DONE]") == None && parse("") == None
  }

  function Frame(encode: Json -> string, j: Json): string {
    DATA + encode(j) + "\n" + "\n"
  }

  /** The stream a server writes: one frame per document, then the end marker. */
  function Printed(encode: Json -> string, frames: seq<Json>): string {
    if frames == [] then "data: [DONE]" + "\n" + "\n" else Frame(encode, frames[0]) + Printed(encode, frames[1..])
  }

  function Content(j: Json): Option<string> {
    j.Get("choices").At(0).Get("delta").Get("content").AsStr()
  }

  function Contents(frames: seq<Json>): seq<Message> {
    if frames == [] then []
    else TextOf(frames[0]) + Contents(frames[1..])
  }

  predicate ErrorFree(j: Json) {
    j.Get("error").Get("message").AsStr() == None
  }

  lemma BlankLine(parse: Parser)
    ensures ChatLine(parse, "") == Continue([])
  {
  }

  lemma EndMarkerLine(parse: Parser)
    ensures ChatLine(parse, "data: [DONE]") == Stop([Done])
  {
    TrimIsTrimmed("data: [DONE]");
  }

  lemma DataLine(body: string)
    requires body != "" && !IsSpace(body[|body| - 1]) && body != "[DONE]"
    ensures var line := DATA + body;
            Trim(line) == line && line != "data: [DONE]" && StartsWith(line, DATA) && line[|DATA|..] == body
  {
    var line := DATA + body;
    assert line[|line| - 1] == body[|body| - 1] && line[0] == 'd' && !IsSpace('d');
    TrimIsTrimmed(line);
    assert line[|DATA|..] == body;
    assert "data: [DONE]"[|DATA|..] == "[DONE]";
  }

  lemma FrameLine(encode: Json -> string, parse: Parser, j: Json)
    requires Encodes(encode, parse, j) && RejectsMarkers(parse) && ErrorFree(j)
    ensures '\n' !in DATA + encode(j)
    ensures ChatLine(parse, DATA + encode(j)) == Continue(if Content(j).Some? then [Text(Content(j).value)] else [])
  {
    assert parse(encode(j)) == Some(j);
    DataLine(encode(j));
  }

  /** A frame is a line of its own followed by a blank one. */
  lemma DecodeFrame<S>(handle: LineHandler<S>, st: S, line: string, rest: string, ending: Ending)
    requires '\n' !in line && handle(handle(st, line).0, "") == (handle(st, line).0, Continue([]))
    ensures var (next, r) := handle(st, line);
            Decode(handle, st, Lines(line + "\n" + "\n" + rest), ending)
            == if r.Stop? then r.sent else r.sent + Decode(handle, next, Lines(rest), ending)
  {
    var (next, _) := handle(st, line);
    assert line + "\n" + "\n" + rest == line + "\n" + ("" + "\n" + rest);
    DecodeFirstLine(handle, st, line, "" + "\n" + rest, ending);
    DecodeFirstLine(handle, next, "", rest, ending);
  }

  lemma EndMarkerStep(parse: Parser, ending: Ending)
    ensures Decode(ChatHandler(parse), (), Lines("data: [DONE]" + "\n" + "\n"), ending) == [Done]
  {
    BlankLine(parse);
    EndMarkerLine(parse);
    assert "data: [DONE]" + "\n" + "\n" == "data: [DONE]" + "\n" + "\n" + "";
    DecodeFrame(ChatHandler(parse), (), "data: [DONE]", "", ending);
  }

  function TextOf(j: Json): seq<Message> {
    if Content(j).Some? then [Text(Content(j).value)] else []
  }

  /** A frame in front of a text means its content in front of what the text means. */
  predicate FrameMeans(encode: Json -> string, meaning: Meaning<()>, j: Json, rest: string) {
    meaning((), Frame(encode, j) + rest) == TextOf(j) + meaning((), rest)
  }

  lemma FrameStep(encode: Json -> string, parse: Parser, j: Json, rest: string, ending: Ending)
    requires Encodes(encode, parse, j) && RejectsMarkers(parse) && ErrorFree(j)
    ensures FrameMeans(encode, DecodeText(ChatHandler(parse), ending), j, rest)
  {
    BlankLine(parse);
    FrameLine(encode, parse, j);
    DecodeFrame(ChatHandler(parse), (), DATA + encode(j), rest, ending);
  }

  lemma {:induction false} PrintedMeans(encode: Json -> string, meaning: Meaning<()>, frames: seq<Json>)
    requires meaning((), Printed(encode, [])) == [Done]
    requires forall j, rest :: j in frames ==> FrameMeans(encode, meaning, j, rest)
    ensures meaning((), Printed(encode, frames)) == Contents(frames) + [Done]
    decreases |frames|
  {
    if frames == [] {
      assert Contents([]) + [Done] == [Done];
    } else {
      var rest := Printed(encode, frames[1..]);
      PrintedMeans(encode, meaning, frames[1..]);
      assert frames[0] in frames && FrameMeans(encode, meaning, frames[0], rest);
      Regroup(TextOf(frames[0]), Contents(frames[1..]), [Done]);
    }
  }

  /** Decoding what was printed gives back every frame's content, in order, and then one done signal. */
  lemma PrintedDecodes(encode: Json -> string, parse: Parser, frames: seq<Json>, ending: Ending)
    requires RejectsMarkers(parse) && forall j :: j in frames ==> Encodes(encode, parse, j) && ErrorFree(j)
    ensures Decode(ChatHandler(parse), (), Lines(Printed(encode, frames)), ending) == Contents(frames) + [Done]
  {
    var meaning := DecodeText(ChatHandler(parse), ending);
    EndMarkerStep(parse, ending);
    forall j, rest | j in frames
      ensures FrameMeans(encode, meaning, j, rest)
    {
      FrameStep(encode, parse, j, rest, ending);
    }
    PrintedMeans(encode, meaning, frames);
  }

  // ---------------------------------------------------------------- the mock worker

  function Choice(delta: map<string, Json>, finish: Json): Json {
    Arr([Obj(map["index" := Number("0"), "delta" := Obj(delta), "finish_reason" := finish])])
  }

  /**
   * The frames of the mock worker: an empty first delta with the role, the other words, a final empty delta.
   * `header(i)` are the other fields of frame `i`: identifier, model and the time it was made.
   */
  function MockFrames(header: nat -> map<string, Json>, words: seq<string>, i: nat, usage: Json): seq<Json>
    decreases |words| - i
  {
    if i >= |words| then [Obj(header(i)["choices" := Choice(map[], Str("stop"))]["usage" := usage])]
    else
      var delta :=
        if i > 0 then map["content" := Str(words[i] + " ")] else map["role" := Str("assistant"), "content" := Str("")];
      [Obj(header(i)["choices" := Choice(delta, Null)])] + MockFrames(header, words, i + 1, usage)
  }

  function MockTexts(words: seq<string>, i: nat): seq<Message>
    decreases |words| - i
  {
    if i >= |words| then [] else [Text(if i > 0 then words[i] + " " else "")] + MockTexts(words, i + 1)
  }

  lemma FinalFrame(header: map<string, Json>, usage: Json)
    requires "error" !in header
    ensures var j := Obj(header["choices" := Choice(map[], Str("stop"))]["usage" := usage]);
            TextOf(j) == [] && ErrorFree(j)
  {
  }

  lemma WordFrame(header: map<string, Json>, delta: map<string, Json>, word: string)
    requires "error" !in header && "content" in delta && delta["content"] == Str(word)
    ensures var j := Obj(header["choices" := Choice(delta, Null)]); TextOf(j) == [Text(word)] && ErrorFree(j)
  {
  }

  lemma {:induction false} MockFramesContents(header: nat -> map<string, Json>, words: seq<string>, i: nat, usage: Json)
    requires forall k :: "error" !in header(k)
    ensures Contents(MockFrames(header, words, i, usage)) == MockTexts(words, i)
    ensures forall j :: j in MockFrames(header, words, i, usage) ==> ErrorFree(j)
    decreases |words| - i
  {
    var frames := MockFrames(header, words, i, usage);
    if i >= |words| {
      FinalFrame(header(i), usage);
      assert frames[1..] == [];
    } else {
      var word := if i > 0 then words[i] + " " else "";
      assert frames[1..] == MockFrames(header, words, i + 1, usage);
      MockFramesContents(header, words, i + 1, usage);
      var delta :=
        if i > 0 then map["content" := Str(word)] else map["role" := Str("assistant"), "content" := Str(word)];
      WordFrame(header(i), delta, word);
    }
  }

  /** What the mock worker streams, cut in any way, is shown as its words and ends with one done signal. */
  method MockWorkerRoundTrip(ghost encode: Json -> string, parse: Parser, ghost header: nat -> map<string, Json>,
                             ghost words: seq<string>, ghost usage: Json, chunks: seq<string>, ending: Ending)
    returns (sent: seq<Message>)
    requires RejectsMarkers(parse) && forall k :: "error" !in header(k)
    requires forall j :: j in MockFrames(header, words, 0, usage) ==> Encodes(encode, parse, j)
    requires Joined(chunks, 0) == Printed(encode, MockFrames(header, words, 0, usage))
    ensures sent == MockTexts(words, 0) + [Done]
  {
    sent := ProcessSseStream(parse, chunks, ending);
    MockFramesContents(header, words, 0, usage);
    PrintedDecodes(encode, parse, MockFrames(header, words, 0, usage), ending);
  }

  // ---------------------------------------------------------------- signals in the same channel

  const DONE := "\n[DONE]"
  const RESPONSE_ID := "\n[RESPONSE_ID]"
  const ERROR := "\n[ERROR]"

  /** How a message travels: signals are texts with a prefix. */
  function Render(m: Message): string {
    match m
    case Text(text) => text
    case Done => DONE
    case Error(text) => ERROR + text
    case ResponseId(text) => RESPONSE_ID + text
  }

  /** `trim_start_matches`: strips the prefix as often as it occurs. */
  function StripAll(s: string, prefix: string): string
    requires prefix != ""
  {
    if StartsWith(s, prefix) then StripAll(s[|prefix|..], prefix) else s
  }

  /** How the interface reads it back. */
  function Receive(token: string): Message {
    if token == DONE then Done
    else if StartsWith(token, RESPONSE_ID) then ResponseId(StripAll(token, RESPONSE_ID))
    else if StartsWith(token, ERROR) then Error(StripAll(token, ERROR))
    else Text(token)
  }

  /** Text that is not itself a signal, and a payload that does not repeat its own signal. */
  predicate Plain(m: Message) {
    match m
    case Text(text) => text != "\n[DONE]" && !StartsWith(text, "\n[RESPONSE_ID]") && !StartsWith(text, "\n[ERROR]")
    case Done => true
    case Error(text) => !StartsWith(text, "\n[ERROR]")
    case ResponseId(text) => !StartsWith(text, "\n[RESPONSE_ID]")
  }

  lemma {:induction false} StripAllShorter(s: string, prefix: string)
    requires prefix != ""
    ensures |StripAll(s, prefix)| <= |s| && (StartsWith(s, prefix) ==> |StripAll(s, prefix)| < |s|)
  {
    if StartsWith(s, prefix) {
      StripAllShorter(s[|prefix|..], prefix);
    }
  }

  lemma StripOnce(prefix: string, text: string)
    requires prefix != ""
    ensures StripAll(prefix + text, prefix) == text <==> !StartsWith(text, prefix)
  {
    assert (prefix + text)[|prefix|..] == text;
    StripAllShorter(text, prefix);
  }

  /** A message survives the channel exactly if it is plain. */
  lemma ReceiveRenderIff(m: Message)
    ensures Receive(Render(m)) == m <==> Plain(m)
  {
    assert RESPONSE_ID[2] == 'R' && ERROR[2] == 'E' && DONE[2] == 'D';
    match m
    case Text(text) =>
      if text != DONE && StartsWith(text, RESPONSE_ID) {
        assert Receive(text).ResponseId?;
      }
    case Done =>
    case Error(text) =>
      assert (ERROR + text)[2] == 'E';
      StripOnce(ERROR, text);
    case ResponseId(text) =>
      assert (RESPONSE_ID + text)[2] == 'R';
      StripOnce(RESPONSE_ID, text);
  }
}
