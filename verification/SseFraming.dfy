/** Server-sent events: the server's frame writers against the bridge's parser, for any chunking. */
module SseFraming {
  import opened Prelude
  import opened Text

  /** A parsed event; decoding `data` as JSON is a later step. */
  datatype SseEvent = SseEvent(id: string, event: string, data: string)

  // ---------- the parser ----------

  /** The first line break, or the end. */
  function LineEnd(s: string): (i: nat)
    ensures i <= |s|
  {
    if s == "" || s[0] == '\n' then 0 else 1 + LineEnd(s[1..])
  }

  function ChopReturn(line: string): string
  {
    if line != "" && line[|line|-1] == '\r' then line[..|line|-1] else line
  }

  /** A line ends with a newline or with a return and a newline. */
  function Lines(s: string): seq<string>
    decreases |s|
  {
    var i := LineEnd(s);
    if i == |s| then [s] else [ChopReturn(s[..i])] + Lines(s[i + 1..])
  }

  datatype Fields = Fields(id: string, event: string, data: seq<string>)

  function ReadLine(f: Fields, line: string): Fields
  {
    if line == "" || StartsWith(line, ":") || StartsWith(line, "retry:") then f
    else if StartsWith(line, "id:") then f.(id := Trim(line[3..]))
    else if StartsWith(line, "event:") then f.(event := Trim(line[6..]))
    else if StartsWith(line, "data:") then f.(data := f.data + [Trim(line[5..])])
    else f
  }

  function ReadLines(f: Fields, lines: seq<string>): Fields
    decreases |lines|
  {
    if lines == [] then f else ReadLines(ReadLine(f, lines[0]), lines[1..])
  }

  function JoinLines(parts: seq<string>): string
  {
    if parts == [] then "" else if |parts| == 1 then parts[0] else parts[0] + "\n" + JoinLines(parts[1..])
  }

  function ParseFrame(frame: string): Option<SseEvent>
  {
    var f := ReadLines(Fields("", "", []), Lines(frame));
    if f.event == "" && f.data == [] then None else Some(SseEvent(f.id, f.event, JoinLines(f.data)))
  }

  function FindBlankLine(s: string): (at: Option<nat>)
    ensures at.Some? ==> at.value + 2 <= |s|
  {
    if |s| < 2 then None
    else if s[0] == '\n' && s[1] == '\n' then Some(0)
    else
      var at := FindBlankLine(s[1..]);
      if at.None? then None else Some(at.value + 1)
  }

  function ToSeq(e: Option<SseEvent>): seq<SseEvent>
  {
    if e.None? then [] else [e.value]
  }

  datatype Drained = Drained(events: seq<SseEvent>, rest: string)

  /** All complete frames of the buffer, and what remains. */
  function Drain(buffer: string): Drained
    decreases |buffer|
  {
    var at := FindBlankLine(buffer);
    if at.None? then Drained([], buffer)
    else
      var tail := Drain(buffer[at.value + 2..]);
      Drained(ToSeq(ParseFrame(buffer[..at.value])) + tail.events, tail.rest)
  }

  // ---------- chunks do not matter ----------

  lemma {:induction false} BlankLineStays(a: string, b: string)
    requires FindBlankLine(a).Some?
    ensures FindBlankLine(a + b) == FindBlankLine(a)
  {
    assert (a + b)[1..] == a[1..] + b;
    if !(a[0] == '\n' && a[1] == '\n') {
      BlankLineStays(a[1..], b);
    }
  }

  /** Draining in two steps gives the same events, and leaves the same remainder. */
  lemma {:induction false} DrainInSteps(a: string, b: string)
    ensures var first := Drain(a);
            var second := Drain(first.rest + b);
            Drain(a + b) == Drained(first.events + second.events, second.rest)
    decreases |a|
  {
    hide ParseFrame, FindBlankLine, Drain;
    var at := FindBlankLine(a);
    DrainUnfolds(a);
    if at.None? {
      assert [] + Drain(a + b).events == Drain(a + b).events;
    } else {
      var n := at.value;
      BlankLineStays(a, b);
      DrainUnfolds(a + b);
      DrainInSteps(a[n + 2..], b);
      assert (a + b)[..n] == a[..n];
      assert (a + b)[n + 2..] == a[n + 2..] + b;
      var frame, tail := ToSeq(ParseFrame(a[..n])), Drain(a[n + 2..]);
      var second := Drain(tail.rest + b);
      assert frame + (tail.events + second.events) == (frame + tail.events) + second.events;
      assert Drain(a).rest == tail.rest && Drain(a).events == frame + tail.events;
    }
  }

  lemma DrainUnfolds(s: string)
    ensures var at := FindBlankLine(s);
            if at.None? then Drain(s) == Drained([], s)
            else var tail := Drain(s[at.value + 2..]);
                 Drain(s) == Drained(ToSeq(ParseFrame(s[..at.value])) + tail.events, tail.rest)
  {}

  function Concat(chunks: seq<string>): string
  {
    if chunks == [] then "" else Concat(chunks[..|chunks|-1]) + chunks[|chunks|-1]
  }

  lemma DrainOneFrame(events: seq<SseEvent>, rest: string)
    requires FindBlankLine(rest).Some?
    ensures var n := FindBlankLine(rest).value;
            var tail := Drain(rest[n + 2..]);
            Drained(events + Drain(rest).events, Drain(rest).rest)
            == Drained((events + ToSeq(ParseFrame(rest[..n]))) + tail.events, tail.rest)
  {
    hide ParseFrame, FindBlankLine, Drain;
    DrainUnfolds(rest);
  }

  method DrainBuffer(buffer: string) returns (events: seq<SseEvent>, rest: string)
    ensures Drained(events, rest) == Drain(buffer)
  {
    hide ParseFrame, FindBlankLine, Drain;
    events, rest := [], buffer;
    assert [] + Drain(buffer).events == Drain(buffer).events;
    while true
      invariant Drain(buffer) == Drained(events + Drain(rest).events, Drain(rest).rest)
      decreases |rest|
    {
      var at := FindBlankLine(rest);
      if at.None? {
        DrainUnfolds(rest);
        break;
      }
      DrainOneFrame(events, rest);
      var parsed := ParseFrame(rest[..at.value]);
      rest := rest[at.value + 2..];
      if parsed.Some? {
        events := events + [parsed.value];
      }
    }
  }

  /** What the parser holds after these chunks: the events so far, and the unfinished rest. */
  function Feed(chunks: seq<string>): Drained
  {
    if chunks == [] then Drained([], "")
    else
      var before := Feed(chunks[..|chunks|-1]);
      var step := Drain(before.rest + chunks[|chunks|-1]);
      Drained(before.events + step.events, step.rest)
  }

  /** Chunk by chunk or all at once: the same events and the same rest. */
  lemma {:induction false} FeedIsDrain(chunks: seq<string>)
    ensures Feed(chunks) == Drain(Concat(chunks))
  {
    hide Drain;
    if chunks == [] {
      NothingToDrain();
    } else {
      FeedIsDrain(chunks[..|chunks|-1]);
      DrainInSteps(Concat(chunks[..|chunks|-1]), chunks[|chunks|-1]);
    }
  }

  /** However the text is cut into chunks, the events are those of the whole text; for text our writers wrote, those written. */
  method ParseSSE(chunks: seq<string>) returns (events: seq<SseEvent>)
    ensures events == Feed(chunks).events == Drain(Concat(chunks)).events
    ensures forall writes :: AllPlain(writes) && Concat(chunks) == TextOf(writes) ==> events == Meanings(writes)
  {
    hide Drain, Meanings, TextOf, AllPlain;
    var buffer := "";
    events := [];
    for i := 0 to |chunks|
      invariant Feed(chunks[..i]) == Drained(events, buffer)
    {
      assert chunks[..i + 1][..i] == chunks[..i];
      var more, rest := DrainBuffer(buffer + chunks[i]);
      events, buffer := events + more, rest;
    }
    assert chunks[..|chunks|] == chunks;
    FeedIsDrain(chunks);
    var more, _ := DrainBuffer(buffer);
    DrainInSteps(Concat(chunks), "");
    assert Concat(chunks) + "" == Concat(chunks) && buffer + "" == buffer;
    events := events + more;
    forall writes | AllPlain(writes) && Concat(chunks) == TextOf(writes) ensures events == Meanings(writes) {
      ChunksRoundTrip(writes, chunks);
    }
  }

  lemma NothingToDrain()
    ensures Drain("") == Drained([], "")
  {}

  /** A line may end with a return and a newline as well. */
  lemma ReturnsDoNotMatter(line: string, rest: string)
    requires OneLine(line)
    ensures Lines(line + "\r\n" + rest) == Lines(line + "\n" + rest)
  {
    LineEndOf(line, rest);
    var chopped := line + "\r";
    EndsAtNewline(chopped, rest);
    var s := chopped + "\n" + rest;
    assert line + "\r\n" + rest == s;
    assert s[..|chopped|] == chopped && s[|chopped| + 1..] == rest && chopped[..|chopped|-1] == line;
    var t := line + "\n" + rest;
    assert t[..|line|] == line && t[|line| + 1..] == rest;
  }

  lemma {:induction false} EndsAtNewline(line: string, rest: string)
    requires '\n' !in line
    ensures LineEnd(line + "\n" + rest) == |line|
  {
    if line != "" {
      EndsAtNewline(line[1..], rest);
      assert (line + "\n" + rest)[1..] == line[1..] + "\n" + rest;
    }
  }

  /** Data lines are collected in order. */
  lemma {:induction false} DataLinesJoin(f: Fields, parts: seq<string>)
    requires forall i :: 0 <= i < |parts| ==> Plain(parts[i])
    ensures ReadLines(f, DataLines(parts)) == f.(data := f.data + parts)
    decreases |parts|
  {
    if parts != [] {
      ReadsData(f, parts[0]);
      hide ReadLine, Plain;
      var next := f.(data := f.data + [parts[0]]);
      DataLinesJoin(next, parts[1..]);
      var lines := DataLines(parts);
      assert lines[0] == "data: " + parts[0] && lines[1..] == DataLines(parts[1..]);
      hide DataLines;
      assert ReadLines(f, lines) == ReadLines(next, lines[1..]);
      hide ReadLines;
      assert f.data + [parts[0]] + parts[1..] == f.data + parts;
    } else {
      assert f.data + [] == f.data;
    }
  }

  /** Several of them are one text with line breaks between. */
  lemma JoinedLines(parts: seq<string>)
    requires parts != []
    ensures JoinLines(parts) == if |parts| == 1 then parts[0] else parts[0] + "\n" + JoinLines(parts[1..])
  {}

  function DataLines(parts: seq<string>): seq<string>
  {
    if parts == [] then [] else ["data: " + parts[0]] + DataLines(parts[1..])
  }

  // ---------- the writers ----------

  datatype Write = Retry | KeepAlive | Control(event: string, data: string) | Delivery(id: string, event: string, data: string)

  /** Text without any line break of its own. */
  predicate OneLine(s: string)
  {
    forall i :: 0 <= i < |s| ==> s[i] != '\n' && s[i] != '\r'
  }

  /** What ids, event names and encoded JSON look like: one line, no blanks around it. */
  predicate Plain(s: string)
  {
    OneLine(s) && Trimmed(s)
  }

  predicate PlainWrite(w: Write)
  {
    match w
    case Retry => true
    case KeepAlive => true
    case Control(event, data) => Plain(event) && Plain(data)
    case Delivery(id, event, data) => Plain(id) && Plain(event) && Plain(data)
  }

  predicate AllPlain(writes: seq<Write>)
  {
    forall i :: 0 <= i < |writes| ==> PlainWrite(writes[i])
  }

  function Frame(w: Write): string
  {
    match w
    case Retry => "retry: 3000"
    case KeepAlive => ": keepalive"
    case Control(event, data) => ("event: " + event) + "\n" + ("data: " + data)
    case Delivery(id, event, data) => ("id: " + id) + "\n" + (("event: " + event) + "\n" + ("data: " + data))
  }

  function Meaning(w: Write): Option<SseEvent>
  {
    match w
    case Control(event, data) => Some(SseEvent("", event, data))
    case Delivery(id, event, data) => Some(SseEvent(id, event, data))
    case _ => None
  }

  function TextOf(writes: seq<Write>): string
  {
    if writes == [] then "" else Frame(writes[0]) + "\n\n" + TextOf(writes[1..])
  }

  function Meanings(writes: seq<Write>): seq<SseEvent>
  {
    if writes == [] then [] else ToSeq(Meaning(writes[0])) + Meanings(writes[1..])
  }

  // ---------- the round trip ----------

  lemma {:induction false} LineEndOf(line: string, rest: string)
    requires OneLine(line)
    ensures LineEnd(line + "\n" + rest) == |line| && LineEnd(line) == |line|
  {
    if line != "" {
      LineEndOf(line[1..], rest);
      assert (line + "\n" + rest)[1..] == line[1..] + "\n" + rest;
    }
  }

  lemma LinesOf(line: string, rest: string)
    requires OneLine(line)
    ensures Lines(line + "\n" + rest) == [line] + Lines(rest) && Lines(line) == [line]
  {
    LineEndOf(line, rest);
    var s := line + "\n" + rest;
    assert s[..|line|] == line && s[|line| + 1..] == rest;
  }

  lemma TrimsPadding(s: string)
    requires Plain(s)
    ensures Trim(" " + s) == s
  {
    assert (" " + s)[1..] == s;
    TrimTrims(s);
  }

  lemma ReadsId(f: Fields, v: string)
    requires Plain(v)
    ensures ReadLine(f, "id: " + v) == f.(id := v) && OneLine("id: " + v)
  {
    var line := "id: " + v;
    assert line[..1] == "i" && line[..3] == "id:" && line[3..] == " " + v;
    assert |line| >= 6 ==> line[..6][0] == 'i';
    TrimsPadding(v);
  }

  lemma ReadsEvent(f: Fields, v: string)
    requires Plain(v)
    ensures ReadLine(f, "event: " + v) == f.(event := v) && OneLine("event: " + v)
  {
    var line := "event: " + v;
    assert line[..1] == "e" && line[..3] == "eve" && line[..6] == "event:" && line[6..] == " " + v;
    TrimsPadding(v);
  }

  lemma ReadsData(f: Fields, v: string)
    requires Plain(v)
    ensures ReadLine(f, "data: " + v) == f.(data := f.data + [v]) && OneLine("data: " + v)
  {
    var line := "data: " + v;
    assert line[..1] == "d" && line[..3] == "dat" && line[..5] == "data:" && line[5..] == " " + v;
    assert |line| >= 6 && line[..6][0] == 'd';
    TrimsPadding(v);
  }

  lemma ReadTwo(f: Fields, a: string, b: string)
    ensures ReadLines(f, [a, b]) == ReadLine(ReadLine(f, a), b)
  {
    assert [a, b][1..] == [b] && [b][1..] == [];
    assert ReadLines(ReadLine(f, a), [b]) == ReadLine(ReadLine(f, a), b);
  }

  lemma ControlParses(event: string, data: string)
    requires Plain(event) && Plain(data)
    ensures ParseFrame(Frame(Control(event, data))) == Some(SseEvent("", event, data))
  {
    hide ReadLine, Lines, Plain, OneLine;
    var none := Fields("", "", []);
    ReadsEvent(none, event);
    ReadsData(none.(event := event), data);
    LinesOf("event: " + event, "data: " + data);
    LinesOf("data: " + data, "");
    ReadTwo(none, "event: " + event, "data: " + data);
  }

  lemma DeliveryParses(id: string, event: string, data: string)
    requires Plain(id) && Plain(event) && Plain(data)
    ensures ParseFrame(Frame(Delivery(id, event, data))) == Some(SseEvent(id, event, data))
  {
    hide ReadLine, Lines, Plain, OneLine;
    var none := Fields("", "", []);
    ReadsId(none, id);
    ReadsEvent(none.(id := id), event);
    ReadsData(none.(id := id, event := event), data);
    LinesOf("id: " + id, ("event: " + event) + "\n" + ("data: " + data));
    LinesOf("event: " + event, "data: " + data);
    LinesOf("data: " + data, "");
    var lines := ["id: " + id, "event: " + event, "data: " + data];
    assert lines[1..] == ["event: " + event, "data: " + data];
    assert Lines(Frame(Delivery(id, event, data))) == lines;
    ReadTwo(none.(id := id), "event: " + event, "data: " + data);
  }

  /** A single line that says nothing makes no event. */
  lemma SilentLineParses(line: string)
    requires OneLine(line) && line != "" && (StartsWith(line, ":") || StartsWith(line, "retry:"))
    ensures ParseFrame(line) == None
  {
    hide Lines, StartsWith, Trim;
    LinesOf(line, "");
    var none := Fields("", "", []);
    assert ReadLine(none, line) == none;
    assert [line][1..] == [];
    assert ReadLines(none, [line]) == none;
  }

  lemma SilentFramesParse()
    ensures ParseFrame(Frame(Retry)) == None && ParseFrame(Frame(KeepAlive)) == None
  {
    hide ParseFrame;
    assert "retry: 3000"[..6] == "retry:" && ": keepalive"[..1] == ":";
    SilentLineParses("retry: 3000");
    SilentLineParses(": keepalive");
  }

  lemma FrameParses(w: Write)
    requires PlainWrite(w)
    ensures ParseFrame(Frame(w)) == Meaning(w)
  {
    hide ParseFrame, Frame;
    match w
    case Retry => SilentFramesParse();
    case KeepAlive => SilentFramesParse();
    case Control(event, data) => ControlParses(event, data);
    case Delivery(id, event, data) => DeliveryParses(id, event, data);
  }

  predicate BlankAt(s: string, i: nat)
  {
    i + 1 < |s| && s[i] == '\n' && s[i + 1] == '\n'
  }

  /** A frame contains no blank line and does not end in a line break. */
  predicate Solid(frame: string)
  {
    (forall i :: 0 <= i < |frame| ==> !BlankAt(frame, i)) && (frame != "" ==> frame[|frame|-1] != '\n')
  }

  lemma {:induction false} BlankLineAfter(frame: string, rest: string)
    requires Solid(frame)
    ensures FindBlankLine(frame + "\n\n" + rest) == Some(|frame|)
  {
    var s := frame + "\n\n" + rest;
    if frame != "" {
      assert s[1..] == frame[1..] + "\n\n" + rest;
      assert forall i :: 0 <= i < |frame| - 1 ==> BlankAt(frame[1..], i) == BlankAt(frame, i + 1);
      BlankLineAfter(frame[1..], rest);
      assert !BlankAt(frame, 0);
    }
  }

  lemma JoinIsSolid(a: string, b: string)
    requires OneLine(a) && a != "" && Solid(b) && b != "" && b[0] != '\n'
    ensures Solid(a + "\n" + b)
  {
    var s := a + "\n" + b;
    forall i | 0 <= i < |s| ensures !BlankAt(s, i) {
      if i > |a| {
        assert BlankAt(s, i) ==> BlankAt(b, i - |a| - 1);
      }
    }
  }

  lemma FrameIsSolid(w: Write)
    requires PlainWrite(w)
    ensures Solid(Frame(w))
  {
    match w
    case Retry =>
    case KeepAlive =>
    case Control(event, data) =>
      JoinIsSolid("event: " + event, "data: " + data);
    case Delivery(id, event, data) =>
      JoinIsSolid("event: " + event, "data: " + data);
      JoinIsSolid("id: " + id, ("event: " + event) + "\n" + ("data: " + data));
  }

  /** The text of any writes parses back to exactly the events written, in order, with nothing left over. */
  lemma {:induction false} WritesRoundTrip(writes: seq<Write>)
    requires AllPlain(writes)
    ensures Drain(TextOf(writes)) == Drained(Meanings(writes), "")
  {
    hide ParseFrame, Frame, Solid, Meaning, PlainWrite;
    if writes != [] {
      var frame, rest := Frame(writes[0]), TextOf(writes[1..]);
      FrameIsSolid(writes[0]);
      FrameParses(writes[0]);
      BlankLineAfter(frame, rest);
      WritesRoundTrip(writes[1..]);
      var text := TextOf(writes);
      assert text[..|frame|] == frame && text[|frame| + 2..] == rest;
    }
  }

  /** Fed in any chunks, the parser yields exactly the events written, and waits for nothing more. */
  lemma ChunksRoundTrip(writes: seq<Write>, chunks: seq<string>)
    requires AllPlain(writes) && Concat(chunks) == TextOf(writes)
    ensures Feed(chunks) == Drained(Meanings(writes), "")
  {
    FeedIsDrain(chunks);
    WritesRoundTrip(writes);
  }

  /** A connection cut anywhere yields the first of the events, whole: never part of one. */
  lemma CutStreamsYieldAPrefix(writes: seq<Write>, cut: nat)
    requires AllPlain(writes)
    requires cut <= |TextOf(writes)|
    ensures Drain(TextOf(writes)[..cut]).events <= Meanings(writes)
  {
    var text := TextOf(writes);
    WritesRoundTrip(writes);
    assert text == text[..cut] + text[cut..];
    DrainInSteps(text[..cut], text[cut..]);
  }
}
