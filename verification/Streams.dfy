/**
 * What the chat client shows of a stream, from the documents that the server printed. The documents are read here by
 * their fields, lines may be padded with whitespace, and lines that hold no document may stand anywhere.
 */
module Streams {
  import opened Text
  import opened Sse

  type Fields = map<string, Json>

  // ---------------------------------------------------------------- chunks

  /** The text that was cut into chunks. */
  function Concat(chunks: seq<string>): string {
    if chunks == [] then "" else Concat(chunks[..|chunks| - 1]) + chunks[|chunks| - 1]
  }

  lemma {:induction false} JoinedIs(chunks: seq<string>, n: nat)
    requires n <= |chunks|
    ensures Concat(chunks[..n]) + Joined(chunks, n) == Concat(chunks)
    decreases |chunks| - n
  {
    if n == |chunks| {
      assert chunks[..n] == chunks;
    } else {
      JoinedIs(chunks, n + 1);
      assert chunks[..n + 1][..n] == chunks[..n];
      Regroup(Concat(chunks[..n]), chunks[n], Joined(chunks, n + 1));
    }
  }

  lemma AllJoined(chunks: seq<string>)
    ensures Joined(chunks, 0) == Concat(chunks)
  {
    JoinedIs(chunks, 0);
    assert chunks[..0] == [];
  }

  // ---------------------------------------------------------------- what documents say

  function FieldsOf(j: Json): Fields {
    if j.Obj? then j.fields else map[]
  }

  function ItemsOf(j: Json): seq<Json> {
    if j.Arr? then j.items else []
  }

  /** The string, the object's fields, the array's items under a key; nothing if the key or the kind is missing. */
  function TextAt(fields: Fields, key: string): Option<string> {
    if key in fields && fields[key].Str? then Some(fields[key].s) else None
  }

  function FieldsAt(fields: Fields, key: string): Fields {
    if key in fields then FieldsOf(fields[key]) else map[]
  }

  function ItemsAt(fields: Fields, key: string): seq<Json> {
    if key in fields then ItemsOf(fields[key]) else []
  }

  function ErrorSaid(j: Json): Option<string> {
    TextAt(FieldsAt(FieldsOf(j), "error"), "message")
  }

  function ContentSaid(j: Json): Option<string> {
    var choices := ItemsAt(FieldsOf(j), "choices");
    if choices == [] then None else TextAt(FieldsAt(FieldsOf(choices[0]), "delta"), "content")
  }

  // ---------------------------------------------------------------- printed lines

  /** Padding: spaces, tabs and carriage returns. */
  predicate Blank(s: string) {
    forall i :: 0 <= i < |s| ==> s[i] in {' ', '\t', '\r'}
  }

  lemma BlankIsSpace(s: string)
    requires Blank(s)
    ensures AllSpace(s) && '\n' !in s
  {
  }

  /** A line of a stream: a document, or something that is none. */
  datatype Item = Document(doc: Json) | Noise(text: string)

  datatype Line = Line(before: string, item: Item, after: string)

  /** The line is padded with blanks only; a document encodes faithfully, noise is neither marker nor document. */
  ghost predicate Printable(encode: Json -> string, parse: Parser, line: Line) {
    && Blank(line.before) && Blank(line.after)
    && match line.item
       case Document(doc) => Encodes(encode, parse, doc)
       case Noise(text) =>
         && '\n' !in text && Trimmed(text) && text != "data: [DONE]"
         && (StartsWith(text, "data: ") ==> parse(text[6..]) == None)
  }

  function Core(encode: Json -> string, item: Item): string {
    match item
    case Document(doc) => "data: " + encode(doc)
    case Noise(text) => text
  }

  function LineText(encode: Json -> string, line: Line): string {
    line.before + Core(encode, line.item) + line.after
  }

  function StreamText(encode: Json -> string, lines: seq<Line>): string {
    if lines == [] then "" else LineText(encode, lines[0]) + "\n" + StreamText(encode, lines[1..])
  }

  lemma CoreTrimmed(encode: Json -> string, parse: Parser, line: Line)
    requires Printable(encode, parse, line) && RejectsMarkers(parse)
    ensures Trimmed(Core(encode, line.item)) && '\n' !in LineText(encode, line)
    ensures Core(encode, line.item) != "data: [DONE]"
    ensures Trim(LineText(encode, line)) == Core(encode, line.item)
  {
    BlankIsSpace(line.before);
    BlankIsSpace(line.after);
    match line.item
    case Document(doc) =>
      assert parse(encode(doc)) == Some(doc);
      DataLine(encode(doc));
      TrimIsTrimmed(DATA + encode(doc));
      TrimPadded(line.before, Core(encode, line.item), line.after);
    case Noise(text) =>
      TrimPadded(line.before, text, line.after);
  }

  // ---------------------------------------------------------------- chat

  function ErrorOf(line: Line): Option<string> {
    if line.item.Document? then ErrorSaid(line.item.doc) else None
  }

  /** What is shown of lines that say no error: their contents, in order. */
  function Shown(lines: seq<Line>): seq<Message> {
    if lines == [] then [] else ShownOf(lines[0]) + Shown(lines[1..])
  }

  function ShownOf(line: Line): seq<Message> {
    if line.item.Document? && ContentSaid(line.item.doc).Some? then [Text(ContentSaid(line.item.doc).value)] else []
  }

  lemma ChatLineSays(encode: Json -> string, parse: Parser, line: Line)
    requires Printable(encode, parse, line) && RejectsMarkers(parse)
    ensures ChatLine(parse, LineText(encode, line))
            == if ErrorOf(line).Some? then Stop([Error(ErrorOf(line).value)]) else Continue(ShownOf(line))
  {
    CoreTrimmed(encode, parse, line);
    if line.item.Document? {
      assert parse(encode(line.item.doc)) == Some(line.item.doc);
      assert ("data: " + encode(line.item.doc))[6..] == encode(line.item.doc);
    }
  }

  /** A printed line in front of a text. */
  lemma ChatFirst(encode: Json -> string, parse: Parser, line: Line, rest: string, ending: Ending)
    requires Printable(encode, parse, line) && RejectsMarkers(parse)
    ensures var meaning := DecodeText(ChatHandler(parse), ending);
            meaning((), LineText(encode, line) + "\n" + rest)
            == if ErrorOf(line).Some? then [Error(ErrorOf(line).value)] else ShownOf(line) + meaning((), rest)
  {
    ChatLineSays(encode, parse, line);
    CoreTrimmed(encode, parse, line);
    DecodeFirstLine(ChatHandler(parse), (), LineText(encode, line), rest, ending);
  }

  /** Lines without an error in front of a text: their contents, and then what the text means. */
  lemma {:induction false} ChatPrefix(encode: Json -> string, parse: Parser, lines: seq<Line>, rest: string,
                                      ending: Ending)
    requires RejectsMarkers(parse)
    requires forall line :: line in lines ==> Printable(encode, parse, line) && ErrorOf(line) == None
    ensures var meaning := DecodeText(ChatHandler(parse), ending);
            meaning((), StreamText(encode, lines) + rest) == Shown(lines) + meaning((), rest)
  {
    var meaning := DecodeText(ChatHandler(parse), ending);
    if lines == [] {
      assert "" + rest == rest;
    } else {
      var more := StreamText(encode, lines[1..]) + rest;
      assert StreamText(encode, lines) + rest == LineText(encode, lines[0]) + "\n" + more;
      ChatFirst(encode, parse, lines[0], more, ending);
      ChatPrefix(encode, parse, lines[1..], rest, ending);
      Regroup(ShownOf(lines[0]), Shown(lines[1..]), meaning((), rest));
    }
  }

  /** A line at which the stream stops, in front of any text. */
  lemma StopLine<S>(handle: LineHandler<S>, st: S, line: string, rest: string, ending: Ending, sent: seq<Message>)
    requires '\n' !in line && handle(st, line).1 == Stop(sent)
    ensures DecodeText(handle, ending)(st, line + "\n" + rest) == sent
  {
    DecodeFirstLine(handle, st, line, rest, ending);
  }

  /** A text without a complete line. */
  lemma NoLine<S>(handle: LineHandler<S>, st: S, tail: string, ending: Ending)
    requires '\n' !in tail
    ensures DecodeText(handle, ending)(st, tail) == [match ending case Closed => Done case Broken(e) => Error(e)]
  {
    assert Lines(tail) == [];
  }

  /** How the printed part of a stream is followed. */
  datatype Follows = Failing(line: Line, rest: string) | Marker(rest: string) | Nothing(tail: string)

  ghost predicate MayFollow(encode: Json -> string, parse: Parser, f: Follows) {
    match f
    case Failing(line, _) => Printable(encode, parse, line) && ErrorOf(line).Some?
    case Marker(_) => true
    case Nothing(tail) => '\n' !in tail
  }

  function FollowText(encode: Json -> string, f: Follows): string {
    match f
    case Failing(line, rest) => LineText(encode, line) + "\n" + rest
    case Marker(rest) => "data: [DONE]" + "\n" + rest
    case Nothing(tail) => tail
  }

  /** An error that was said, the marker, or the end of the stream. */
  function LastSent(f: Follows, ending: Ending): Message
    requires f.Failing? ==> ErrorOf(f.line).Some?
  {
    match f
    case Failing(line, _) => Error(ErrorOf(line).value)
    case Marker(_) => Done
    case Nothing(_) => match ending case Closed => Done case Broken(e) => Error(e)
  }

  lemma ChatFollows(encode: Json -> string, parse: Parser, f: Follows, ending: Ending)
    requires RejectsMarkers(parse) && MayFollow(encode, parse, f)
    ensures DecodeText(ChatHandler(parse), ending)((), FollowText(encode, f)) == [LastSent(f, ending)]
  {
    match f
    case Failing(line, rest) => ChatFirst(encode, parse, line, rest, ending);
    case Marker(rest) =>
      EndMarkerLine(parse);
      StopLine(ChatHandler(parse), (), "data: [DONE]", rest, ending, [Done]);
    case Nothing(tail) => NoLine(ChatHandler(parse), (), tail, ending);
  }

  /**
   * For every list of lines without an error, however the text is cut into chunks: their contents are sent, in order,
   * and then one last message. If an error is said next it is that error, whatever comes after; after the marker it is
   * the end; if the stream ends it is the end or what broke it.
   */
  method ShowChat(ghost encode: Json -> string, parse: Parser, ghost lines: seq<Line>, ghost f: Follows,
                  chunks: seq<string>, ending: Ending) returns (sent: seq<Message>)
    requires RejectsMarkers(parse) && MayFollow(encode, parse, f)
    requires forall line :: line in lines ==> Printable(encode, parse, line) && ErrorOf(line) == None
    requires Concat(chunks) == StreamText(encode, lines) + FollowText(encode, f)
    ensures sent == Shown(lines) + [LastSent(f, ending)]
  {
    sent := StreamChatCompletions(parse, Opened(chunks, ending));
    AllJoined(chunks);
    ChatPrefix(encode, parse, lines, FollowText(encode, f), ending);
    ChatFollows(encode, parse, f, ending);
  }

  // ---------------------------------------------------------------- responses

  function KindSaid(j: Json): Option<string> {
    TextAt(FieldsOf(j), "type")
  }

  function IdSaid(j: Json): Option<string> {
    TextAt(FieldsAt(FieldsOf(j), "response"), "id")
  }

  function DeltaSaid(j: Json): Option<string> {
    TextAt(FieldsOf(j), "delta")
  }

  /** The texts of a finished response: of every output, of every part of its content, in order. */
  function TextsSaid(j: Json): seq<string> {
    OutputsSaid(ItemsAt(FieldsAt(FieldsOf(j), "response"), "output"))
  }

  function OutputsSaid(outputs: seq<Json>): seq<string> {
    if outputs == [] then []
    else OutputsSaid(outputs[..|outputs| - 1]) + PartsSaid(ItemsAt(FieldsOf(outputs[|outputs| - 1]), "content"))
  }

  function PartsSaid(parts: seq<Json>): seq<string> {
    if parts == [] then []
    else
      var text := TextAt(FieldsOf(parts[|parts| - 1]), "text");
      PartsSaid(parts[..|parts| - 1]) + if text.Some? then [text.value] else []
  }

  /** The document that finishes a response. */
  predicate Finishes(j: Json) {
    KindSaid(j) == Some("response.completed") || KindSaid(j) == Some("response.done")
  }

  /** A delta that is shown. */
  predicate ShowsDelta(line: Line) {
    && line.item.Document? && KindSaid(line.item.doc) == Some("response.output_text.delta")
    && DeltaSaid(line.item.doc).Some?
  }

  predicate Finishing(line: Line) {
    line.item.Document? && Finishes(line.item.doc)
  }

  /** What is sent while the response is not finished: identifiers and deltas, in order. */
  function Progress(lines: seq<Line>): seq<Message> {
    if lines == [] then [] else ProgressOf(lines[0]) + Progress(lines[1..])
  }

  function ProgressOf(line: Line): seq<Message> {
    if ShowsDelta(line) then [Text(DeltaSaid(line.item.doc).value)]
    else if line.item.Document? && KindSaid(line.item.doc) == Some("response.created") && IdSaid(line.item.doc).Some?
    then [ResponseId(IdSaid(line.item.doc).value)]
    else []
  }

  predicate AnyDelta(lines: seq<Line>) {
    exists i :: 0 <= i < |lines| && ShowsDelta(lines[i])
  }

  lemma {:induction false} PartsSaidFirst(parts: seq<Json>)
    ensures PartsSaid(parts) == TextsOf(parts)
  {
    if parts == [] {
    } else {
      var init, last := parts[..|parts| - 1], parts[|parts| - 1];
      PartsSaidFirst(init);
      TextsOfSnoc(init, last);
      assert parts == init + [last];
    }
  }

  lemma {:induction false} TextsOfSnoc(parts: seq<Json>, last: Json)
    ensures TextsOf(parts + [last]) == TextsOf(parts) + TextsOf([last])
  {
    if parts == [] {
      assert parts + [last] == [last];
    } else {
      assert (parts + [last])[1..] == parts[1..] + [last];
      TextsOfSnoc(parts[1..], last);
    }
  }

  lemma {:induction false} OutputTextsSnoc(outputs: seq<Json>, last: Json)
    ensures OutputTexts(outputs + [last]) == OutputTexts(outputs) + TextsOf(last.Get("content").AsArray())
  {
    if outputs == [] {
      assert outputs + [last] == [last] && [last][1..] == [];
    } else {
      assert (outputs + [last])[1..] == outputs[1..] + [last];
      OutputTextsSnoc(outputs[1..], last);
    }
  }

  lemma ContentIs(output: Json)
    ensures ItemsAt(FieldsOf(output), "content") == output.Get("content").AsArray()
  {
  }

  lemma OutputsSaidSnoc(outputs: seq<Json>, last: Json)
    ensures OutputsSaid(outputs + [last]) == OutputsSaid(outputs) + PartsSaid(ItemsAt(FieldsOf(last), "content"))
  {
    assert (outputs + [last])[..|outputs|] == outputs;
  }

  lemma {:induction false} OutputsSaidAre(outputs: seq<Json>)
    ensures OutputsSaid(outputs) == OutputTexts(outputs)
  {
    if outputs == [] {
    } else {
      var init, last := outputs[..|outputs| - 1], outputs[|outputs| - 1];
      OutputsSaidAre(init);
      PartsSaidFirst(last.Get("content").AsArray());
      ContentIs(last);
      OutputsSaidSnoc(init, last);
      OutputTextsSnoc(init, last);
      assert outputs == init + [last];
    }
  }

  /** How a printed line is read: as a finished response, or as progress. */
  predicate ReadAs(line: Line, e: ResponsesEvent) {
    if Finishing(line) then e == Completed(TextsSaid(line.item.doc))
    else if ShowsDelta(line) then e == Delta(DeltaSaid(line.item.doc).value)
    else if e.Created? then ProgressOf(line) == [ResponseId(e.id)]
    else e == ResponsesEvent.Nothing && ProgressOf(line) == []
  }

  lemma PrintedReadAs(encode: Json -> string, parse: Parser, line: Line)
    requires Printable(encode, parse, line) && RejectsMarkers(parse)
    ensures ReadAs(line, EventOf(parse, LineText(encode, line)))
  {
    CoreTrimmed(encode, parse, line);
    if line.item.Document? {
      var doc := line.item.doc;
      assert parse(encode(doc)) == Some(doc);
      assert ("data: " + encode(doc))[6..] == encode(doc);
      OutputsSaidAre(ItemsAt(FieldsAt(FieldsOf(doc), "response"), "output"));
    }
  }

  /** What a reader makes of the stream text; `read` is any way of reading lines. */
  ghost predicate Reads(read: string -> ResponsesEvent, encode: Json -> string, line: Line) {
    '\n' !in LineText(encode, line) && ReadAs(line, read(LineText(encode, line)))
  }

  /** A printed line in front of a text; `got` says whether a delta was shown before. */
  lemma ResponsesFirst(read: string -> ResponsesEvent, encode: Json -> string, got: bool, line: Line, rest: string,
                       ending: Ending)
    requires Reads(read, encode, line)
    ensures var meaning := DecodeText(ResponsesHandler(read), ending);
            meaning(got, LineText(encode, line) + "\n" + rest)
            == if Finishing(line) then (if got then [] else AsTexts(TextsSaid(line.item.doc))) + [Done]
               else ProgressOf(line) + meaning(got || ShowsDelta(line), rest)
  {
    DecodeFirstLine(ResponsesHandler(read), got, LineText(encode, line), rest, ending);
  }

  /** Lines that do not finish the response, in front of a text. */
  lemma {:induction false} ResponsesPrefix(read: string -> ResponsesEvent, encode: Json -> string, got: bool,
                                           lines: seq<Line>, rest: string, ending: Ending)
    requires forall line :: line in lines ==> Reads(read, encode, line) && !Finishing(line)
    ensures var meaning := DecodeText(ResponsesHandler(read), ending);
            meaning(got, StreamText(encode, lines) + rest) == Progress(lines) + meaning(got || AnyDelta(lines), rest)
    decreases |lines|
  {
    var meaning := DecodeText(ResponsesHandler(read), ending);
    if lines == [] {
      assert "" + rest == rest;
    } else {
      var more, next := StreamText(encode, lines[1..]) + rest, got || ShowsDelta(lines[0]);
      assert StreamText(encode, lines) + rest == LineText(encode, lines[0]) + "\n" + more;
      ResponsesFirst(read, encode, got, lines[0], more, ending);
      ResponsesPrefix(read, encode, next, lines[1..], rest, ending);
      AnyDeltaFirst(lines);
      Regroup(ProgressOf(lines[0]), Progress(lines[1..]), meaning(got || AnyDelta(lines), rest));
    }
  }

  lemma AnyDeltaFirst(lines: seq<Line>)
    requires lines != []
    ensures AnyDelta(lines) <==> ShowsDelta(lines[0]) || AnyDelta(lines[1..])
  {
    if i :| 0 <= i < |lines| && ShowsDelta(lines[i]) {
      if i > 0 {
        assert lines[1..][i - 1] == lines[i];
      }
    }
    if i :| 0 <= i < |lines[1..]| && ShowsDelta(lines[1..][i]) {
      assert lines[i + 1] == lines[1..][i];
    }
  }

  /** How the unfinished part of a response is followed. */
  datatype Closes = Finished(line: Line, rest: string) | Marked(rest: string) | Ended(tail: string)

  ghost predicate MayClose(encode: Json -> string, parse: Parser, c: Closes) {
    match c
    case Finished(line, _) => Printable(encode, parse, line) && Finishing(line)
    case Marked(_) => true
    case Ended(tail) => '\n' !in tail
  }

  function CloseText(encode: Json -> string, c: Closes): string {
    match c
    case Finished(line, rest) => LineText(encode, line) + "\n" + rest
    case Marked(rest) => "data: [DONE]" + "\n" + rest
    case Ended(tail) => tail
  }

  /** The texts of the finished response if no delta was shown, and one last message. */
  function ClosingSent(c: Closes, got: bool, ending: Ending): seq<Message>
    requires c.Finished? ==> c.line.item.Document?
  {
    match c
    case Finished(line, _) => (if got then [] else AsTexts(TextsSaid(line.item.doc))) + [Done]
    case Marked(_) => [Done]
    case Ended(_) => [match ending case Closed => Done case Broken(e) => Error(e)]
  }

  lemma MarkerRead(parse: Parser)
    ensures EventOf(parse, "data: [DONE]") == DoneMarker
  {
    TrimIsTrimmed("data: [DONE]");
  }

  lemma ResponsesClose(read: string -> ResponsesEvent, encode: Json -> string, got: bool, c: Closes, ending: Ending)
    requires match c
             case Finished(line, _) => Reads(read, encode, line) && Finishing(line)
             case Marked(_) => read("data: [DONE]") == DoneMarker
             case Ended(tail) => '\n' !in tail
    ensures DecodeText(ResponsesHandler(read), ending)(got, CloseText(encode, c)) == ClosingSent(c, got, ending)
  {
    match c
    case Finished(line, rest) => ResponsesFirst(read, encode, got, line, rest, ending);
    case Marked(rest) => StopLine(ResponsesHandler(read), got, "data: [DONE]", rest, ending, [Done]);
    case Ended(tail) => NoLine(ResponsesHandler(read), got, tail, ending);
  }

  lemma PrintedReads(encode: Json -> string, parse: Parser, line: Line)
    requires Printable(encode, parse, line) && RejectsMarkers(parse)
    ensures Reads(Reader(parse), encode, line)
  {
    CoreTrimmed(encode, parse, line);
    PrintedReadAs(encode, parse, line);
  }

  /**
   * For every list of lines that do not finish the response, however the text is cut into chunks: each identifier and
   * each delta is sent, in order. If a finished response follows, its texts are sent in order exactly if no delta was,
   * whatever comes after. Then comes one last message.
   */
  method ShowResponses(ghost encode: Json -> string, parse: Parser, ghost lines: seq<Line>, ghost c: Closes,
                       chunks: seq<string>, ending: Ending) returns (sent: seq<Message>)
    requires RejectsMarkers(parse) && MayClose(encode, parse, c)
    requires forall line :: line in lines ==> Printable(encode, parse, line) && !Finishing(line)
    requires Concat(chunks) == StreamText(encode, lines) + CloseText(encode, c)
    ensures sent == Progress(lines) + ClosingSent(c, AnyDelta(lines), ending)
  {
    sent := StreamResponses(parse, Opened(chunks, ending));
    AllJoined(chunks);
    ghost var read := Reader(parse);
    forall line | line in lines
      ensures Reads(read, encode, line)
    {
      PrintedReads(encode, parse, line);
    }
    if c.Finished? {
      PrintedReads(encode, parse, c.line);
    }
    MarkerRead(parse);
    ResponsesPrefix(read, encode, false, lines, CloseText(encode, c), ending);
    ResponsesClose(read, encode, AnyDelta(lines), c, ending);
  }

  // ---------------------------------------------------------------- the mock worker's frames

  /** The one choice of a frame: its delta, and how it finished. */
  ghost predicate ChoiceIs(j: Json, delta: Fields, finish: Json) {
    var choices := ItemsAt(FieldsOf(j), "choices");
    && |choices| == 1 && FieldsAt(FieldsOf(choices[0]), "delta") == delta
    && FieldsOf(choices[0]).Keys == {"index", "delta", "finish_reason"}
    && FieldsOf(choices[0])["index"] == Number("0") && FieldsOf(choices[0])["finish_reason"] == finish
  }

  /** The k-th frame from `i` on: the role with an empty first word, a word with a space, or the end with the usage. */
  lemma {:induction false} MockFrameAt(header: nat -> Fields, words: seq<string>, i: nat, usage: Json, k: nat)
    requires i <= |words| && k <= |words| - i
    ensures var frames := MockFrames(header, words, i, usage);
            && |frames| == |words| - i + 1
            && (i + k == 0 && words != [] ==>
                  ChoiceIs(frames[k], map["role" := Str("assistant"), "content" := Str("")], Null))
            && (0 < i + k < |words| ==> ChoiceIs(frames[k], map["content" := Str(words[i + k] + " ")], Null))
            && (i + k == |words| ==>
                  && ChoiceIs(frames[k], map[], Str("stop"))
                  && "usage" in FieldsOf(frames[k]) && FieldsOf(frames[k])["usage"] == usage)
    decreases k, |words| - i
  {
    var frames := MockFrames(header, words, i, usage);
    if i < |words| {
      MockFrameAt(header, words, i + 1, usage, if k > 0 then k - 1 else 0);
      assert frames[1..] == MockFrames(header, words, i + 1, usage);
    }
  }
}
