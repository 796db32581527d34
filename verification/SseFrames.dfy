/** Server-sent event frames (internal/admin/sse.go, writeSSELine) read back by the event-stream
    parser of sections 9.2.5 and 9.2.6 of the HTML Living Standard. */
module SseFrames {
  import opened GoStrings
  import opened LogTail

  // ---------------------------------------------------------------- the writer

  function Segments(payload: string): (r: seq<string>)
    ensures |r| >= 1
  {
    Split(CrToLf(CollapseCrlf(payload)), '\n')
  }

  function DataLines(segments: seq<string>): seq<string> {
    if segments == [] then [] else ["data: " + segments[0]] + DataLines(segments[1..])
  }

  /** The lines of one frame; the empty last line ends the event. */
  function FrameLines(name: string, payload: string): seq<string> {
    (if name != "" then ["event: " + name] else [])
      + (if payload == "" then ["data:"] else DataLines(Segments(payload)))
      + [""]
  }

  function JoinLines(lines: seq<string>): string {
    if lines == [] then "" else lines[0] + "\n" + JoinLines(lines[1..])
  }

  lemma {:induction false} JoinConcat(a: seq<string>, b: seq<string>)
    ensures JoinLines(a + b) == JoinLines(a) + JoinLines(b)
    decreases |a|
  {
    if a == [] {
      assert a + b == b;
    } else {
      assert (a + b)[1..] == a[1..] + b;
      JoinConcat(a[1..], b);
    }
  }

  lemma {:induction false} JoinOne(line: string)
    ensures JoinLines([line]) == line + "\n"
  {
    assert JoinLines([line]) == line + "\n" + JoinLines([line][1..]);
  }

  lemma {:induction false} DataConcat(a: seq<string>, b: seq<string>)
    ensures DataLines(a + b) == DataLines(a) + DataLines(b)
    decreases |a|
  {
    if a == [] {
      assert a + b == b;
    } else {
      assert (a + b)[1..] == a[1..] + b;
      DataConcat(a[1..], b);
    }
  }

  /** Appends one frame to what was written so far. */
  method WriteSSELine(written: string, eventName: string, payload: string) returns (w: string)
    ensures w == written + JoinLines(FrameLines(eventName, payload))
  {
    hide JoinLines, DataLines, Segments;
    w := written;
    ghost var head := if eventName != "" then ["event: " + eventName] else [];
    JoinOne("event: " + eventName);
    JoinOne("");
    JoinNone();
    if eventName != "" {
      w := w + "event: " + eventName + "\n";
    }
    assert w == written + JoinLines(head);
    if payload == "" {
      w := w + "data:\n\n";
      JoinOne("data:");
      JoinConcat(head + ["data:"], [""]);
      JoinConcat(head, ["data:"]);
      assert "data:\n\n" == "data:" + "\n" + ("" + "\n");
      return;
    }
    var segments := Segments(payload);
    assert segments[..0] == [] && head + [] == head;
    for i := 0 to |segments|
      invariant w == written + JoinLines(head + DataLines(segments[..i]))
    {
      DataStep(head, segments, i);
      w := w + ("data: " + segments[i] + "\n");
    }
    assert segments[..|segments|] == segments;
    JoinConcat(head + DataLines(segments), [""]);
    w := w + "\n";
  }

  lemma {:induction false} DataStep(head: seq<string>, segments: seq<string>, i: nat)
    requires i < |segments|
    ensures JoinLines(head + DataLines(segments[..i + 1]))
         == JoinLines(head + DataLines(segments[..i])) + ("data: " + segments[i] + "\n")
  {
    hide JoinLines, DataLines;
    var before := head + DataLines(segments[..i]);
    assert segments[..i + 1] == segments[..i] + [segments[i]];
    DataConcat(segments[..i], [segments[i]]);
    DataOne(segments[i]);
    JoinConcat(before, ["data: " + segments[i]]);
    JoinOne("data: " + segments[i]);
    assert before + ["data: " + segments[i]] == head + DataLines(segments[..i + 1]);
  }

  lemma {:induction false} JoinNone()
    ensures JoinLines([]) == "" && DataLines([]) == []
  {
  }

  lemma {:induction false} DataOne(segment: string)
    ensures DataLines([segment]) == ["data: " + segment]
  {
    assert DataLines([segment]) == ["data: " + segment] + DataLines([segment][1..]);
  }

  // ---------------------------------------------------------------- the parser

  const BYTE_ORDER_MARK := "\U{EF}\U{BB}\U{BF}"

  datatype Event = Event(kind: string, data: string, lastId: string)

  datatype Buffers = Buffers(data: string, kind: string, lastId: string, events: seq<Event>)

  /** Lines end at CRLF, LF or CR; an unfinished last line is dropped. */
  function StreamLines(s: string, current: string): seq<string>
    decreases |s|
  {
    if s == "" then []
    else if s[0] == '\n' then [current] + StreamLines(s[1..], "")
    else if s[0] == '\r' then
      [current] + StreamLines(if |s| > 1 && s[1] == '\n' then s[2..] else s[1..], "")
    else StreamLines(s[1..], current + [s[0]])
  }

  function Dispatch(b: Buffers): Buffers {
    if b.data == "" then b.(kind := "")
    else
      var data := TrimSuffix(b.data, "\n");
      Buffers("", "", b.lastId, b.events + [Event(if b.kind == "" then "message" else b.kind, data, b.lastId)])
  }

  function Field(b: Buffers, field: string, value: string): Buffers {
    if field == "event" then b.(kind := value)
    else if field == "data" then b.(data := b.data + value + "\n")
    else if field == "id" && '\0' !in value then b.(lastId := value)
    else b
  }

  function Line(b: Buffers, line: string): Buffers {
    if line == "" then Dispatch(b)
    else
      var colon := IndexByte(line, ':');
      if colon == 0 then b
      else if colon < 0 then Field(b, line, "")
      else
        var value := line[colon + 1..];
        Field(b, line[..colon], if HasPrefix(value, " ") then value[1..] else value)
  }

  function Lines(b: Buffers, lines: seq<string>): Buffers
    decreases |lines|
  {
    if lines == [] then b else Lines(Line(b, lines[0]), lines[1..])
  }

  function ParseStream(stream: string): seq<Event> {
    var s := if HasPrefix(stream, BYTE_ORDER_MARK) then stream[3..] else stream;
    Lines(Buffers("", "", "", []), StreamLines(s, "")).events
  }

  // ---------------------------------------------------------------- round trip

  /** Every carriage return, alone or before a line feed, becomes one line feed. */
  function Normalized(s: string): string {
    if s == "" then ""
    else if s[0] == '\r' then "\n" + Normalized(if |s| > 1 && s[1] == '\n' then s[2..] else s[1..])
    else [s[0]] + Normalized(s[1..])
  }

  lemma {:induction false} TwoPassesNormalise(s: string)
    ensures CrToLf(CollapseCrlf(s)) == Normalized(s)
    ensures '\r' !in Normalized(s)
    ensures s != "" ==> Normalized(s) != ""
    decreases |s|
  {
    if s == "" {
    } else {
      if |s| >= 2 && s[0] == '\r' && s[1] == '\n' {
        TwoPassesNormalise(s[2..]);
        assert CollapseCrlf(s)[1..] == CollapseCrlf(s[2..]);
      } else {
        TwoPassesNormalise(s[1..]);
        assert CollapseCrlf(s)[1..] == CollapseCrlf(s[1..]);
      }
    }
  }

  ghost predicate OneLine(s: string) {
    '\n' !in s && '\r' !in s
  }

  ghost predicate AllOneLine(lines: seq<string>) {
    forall i :: 0 <= i < |lines| ==> OneLine(lines[i])
  }

  lemma {:induction false} StreamLineEnds(line: string, rest: string, current: string)
    requires OneLine(line)
    ensures StreamLines(line + "\n" + rest, current) == [current + line] + StreamLines(rest, "")
    decreases |line|
  {
    var s := line + "\n" + rest;
    if line == "" {
      assert s[1..] == rest;
      assert current + line == current;
    } else {
      assert s[0] == line[0] && s[1..] == line[1..] + "\n" + rest;
      StreamLineEnds(line[1..], rest, current + [line[0]]);
      assert current + [line[0]] + line[1..] == current + line;
    }
  }

  lemma {:induction false} StreamLinesOfJoined(lines: seq<string>)
    requires AllOneLine(lines)
    ensures StreamLines(JoinLines(lines), "") == lines
    decreases |lines|
  {
    if lines == [] {
    } else {
      StreamLineEnds(lines[0], JoinLines(lines[1..]), "");
      StreamLinesOfJoined(lines[1..]);
      assert "" + lines[0] == lines[0];
    }
  }

  lemma {:induction false} LinesConcat(b: Buffers, x: seq<string>, y: seq<string>)
    ensures Lines(b, x + y) == Lines(Lines(b, x), y)
    decreases |x|
  {
    if x == [] {
      assert x + y == y;
    } else {
      assert (x + y)[1..] == x[1..] + y;
      LinesConcat(Line(b, x[0]), x[1..], y);
    }
  }

  lemma {:induction false} LabelledLine(b: Buffers, field: string, value: string)
    requires field == "event" || field == "data"
    ensures Line(b, field + ": " + value) == Field(b, field, value)
  {
    var line := field + ": " + value;
    var colon := IndexByte(line, ':');
    assert line[|field|] == ':';
    assert ':' !in field;
    assert colon == |field|;
    assert line[..colon] == field;
    assert line[colon + 1..] == " " + value;
    assert (" " + value)[..1] == " " && (" " + value)[1..] == value;
  }

  lemma {:induction false} DataLinesBuffer(b: Buffers, segments: seq<string>)
    ensures Lines(b, DataLines(segments)) == b.(data := b.data + JoinLines(segments))
    decreases |segments|
  {
    hide Line, Lines, JoinLines, DataLines;
    if segments == [] {
      NoSegments(b);
    } else {
      DataLineBuffers(b, segments[0]);
      var b' := b.(data := b.data + (segments[0] + "\n"));
      DataLinesBuffer(b', segments[1..]);
      FirstSegment(b, segments);
      DataGrows(b.data, segments[0] + "\n", JoinLines(segments[1..]));
    }
  }

  lemma {:induction false} NoSegments(b: Buffers)
    ensures Lines(b, DataLines([])) == b && b.data + JoinLines([]) == b.data
  {
  }

  lemma {:induction false} FirstSegment(b: Buffers, segments: seq<string>)
    requires segments != []
    ensures Lines(b, DataLines(segments)) == Lines(Line(b, "data: " + segments[0]), DataLines(segments[1..]))
    ensures JoinLines(segments) == segments[0] + "\n" + JoinLines(segments[1..])
  {
    hide Line;
    assert DataLines(segments)[1..] == DataLines(segments[1..]);
  }

  lemma {:induction false} DataGrows(data: string, line: string, rest: string)
    ensures data + (line + rest) == data + line + rest
  {
  }

  lemma {:induction false} DataLineBuffers(b: Buffers, segment: string)
    ensures Line(b, "data: " + segment) == b.(data := b.data + (segment + "\n"))
  {
    LabelledLine(b, "data", segment);
    assert "data: " + segment == "data" + ": " + segment;
    assert b.data + segment + "\n" == b.data + (segment + "\n");
  }

  /** Splitting at line feeds and joining again adds exactly the final line feed. */
  lemma {:induction false} JoinOfSplit(s: string)
    ensures JoinLines(Split(s, '\n')) == s + "\n"
  {
    if s == "" {
      JoinOne("");
    } else {
      JoinOfSplit(s[1..]);
      var rest := Split(s[1..], '\n');
      assert s == [s[0]] + s[1..];
      if s[0] == '\n' {
        assert Split(s, '\n')[1..] == rest;
      } else {
        assert Split(s, '\n')[1..] == rest[1..];
        assert JoinLines(rest) == rest[0] + "\n" + JoinLines(rest[1..]);
        assert JoinLines(Split(s, '\n')) == [s[0]] + rest[0] + "\n" + JoinLines(rest[1..]);
        assert [s[0]] + (s[1..] + "\n") == s + "\n";
      }
    }
  }

  function Expected(name: string, payload: string): Event {
    Event(if name == "" then "message" else name, Normalized(payload), "")
  }

  /** One frame read from clean buffers is one event, and leaves the buffers clean. */
  lemma {:induction false} FrameIsOneEvent(events: seq<Event>, name: string, payload: string)
    requires OneLine(name)
    ensures
      Lines(Buffers("", "", "", events), FrameLines(name, payload))
        == Buffers("", "", "", events + [Expected(name, payload)])
  {
    hide JoinLines, DataLines, Normalized, IndexByte, HasPrefix;
    var b0 := Buffers("", "", "", events);
    var b1 := b0.(kind := name);
    var head := if name != "" then ["event: " + name] else [];
    var body := if payload == "" then ["data:"] else DataLines(Segments(payload));
    LinesConcat(b0, head + body, [""]);
    LinesConcat(b0, head, body);
    if name != "" {
      LabelledLine(b0, "event", name);
      assert "event: " + name == "event" + ": " + name;
      LinesOne(b0, "event: " + name);
    }
    assert Lines(b0, head) == b1;
    BodyBuffers(b1, payload);
    LinesOne(Lines(b1, body), "");
    TrimNewline(Normalized(payload));
  }

  lemma {:induction false} LinesOne(b: Buffers, line: string)
    ensures Lines(b, [line]) == Line(b, line)
  {
    assert Lines(b, [line]) == Lines(Line(b, line), [line][1..]);
  }

  lemma {:induction false} TrimNewline(s: string)
    ensures TrimSuffix(s + "\n", "\n") == s && s + "\n" != ""
  {
  }

  lemma {:induction false} BodyBuffers(b: Buffers, payload: string)
    requires b.data == ""
    ensures
      var body := if payload == "" then ["data:"] else DataLines(Segments(payload));
      Lines(b, body) == b.(data := Normalized(payload) + "\n")
  {
    if payload == "" {
      LinesOne(b, "data:");
      var line := "data:";
      assert IndexByte(line, ':') == 4 && line[..4] == "data" && line[5..] == "";
    } else {
      hide JoinLines, DataLines;
      DataLinesBuffer(b, Segments(payload));
      TwoPassesNormalise(payload);
      JoinOfSplit(Normalized(payload));
    }
  }

  datatype Sent = Sent(name: string, payload: string)

  function AllLines(frames: seq<Sent>): seq<string> {
    if frames == [] then [] else FrameLines(frames[0].name, frames[0].payload) + AllLines(frames[1..])
  }

  function AllExpected(frames: seq<Sent>): (r: seq<Event>)
    ensures |r| == |frames| && forall i :: 0 <= i < |r| ==> r[i] == Expected(frames[i].name, frames[i].payload)
  {
    seq(|frames|, i requires 0 <= i < |frames| => Expected(frames[i].name, frames[i].payload))
  }

  /** What the event loop writes for a list of frames. */
  function Stream(frames: seq<Sent>): string {
    if frames == [] then ""
    else JoinLines(FrameLines(frames[0].name, frames[0].payload)) + Stream(frames[1..])
  }

  lemma {:induction false} StreamIsJoined(frames: seq<Sent>)
    ensures Stream(frames) == JoinLines(AllLines(frames))
  {
    if frames == [] {
    } else {
      StreamIsJoined(frames[1..]);
      JoinConcat(FrameLines(frames[0].name, frames[0].payload), AllLines(frames[1..]));
    }
  }

  lemma {:induction false} DataLinesOneLine(segments: seq<string>)
    requires AllOneLine(segments)
    ensures AllOneLine(DataLines(segments))
  {
    if segments == [] {
    } else {
      DataLinesOneLine(segments[1..]);
    }
  }

  lemma {:induction false} SegmentsOneLine(payload: string)
    ensures AllOneLine(Segments(payload))
  {
    TwoPassesNormalise(payload);
    SplitPieces(Normalized(payload), '\n');
    SplitKeeps(Normalized(payload), '\r');
  }

  lemma {:induction false} SplitKeeps(s: string, c: char)
    requires c !in s
    ensures forall i :: 0 <= i < |Split(s, '\n')| ==> c !in Split(s, '\n')[i]
  {
    if s == "" {
    } else {
      SplitKeeps(s[1..], c);
    }
  }

  lemma {:induction false} AllLinesOneLine(frames: seq<Sent>)
    requires forall i :: 0 <= i < |frames| ==> OneLine(frames[i].name)
    ensures AllOneLine(AllLines(frames))
  {
    hide Segments, DataLines;
    if frames == [] {
    } else {
      AllLinesOneLine(frames[1..]);
      SegmentsOneLine(frames[0].payload);
      DataLinesOneLine(Segments(frames[0].payload));
      assert OneLine(frames[0].name);
    }
  }

  lemma {:induction false} FramesAreEvents(events: seq<Event>, frames: seq<Sent>)
    requires forall i :: 0 <= i < |frames| ==> OneLine(frames[i].name)
    ensures Lines(Buffers("", "", "", events), AllLines(frames)) == Buffers("", "", "", events + AllExpected(frames))
    decreases |frames|
  {
    hide FrameLines, Expected, Line;
    if frames == [] {
      assert events + [] == events;
    } else {
      assert OneLine(frames[0].name);
      FrameIsOneEvent(events, frames[0].name, frames[0].payload);
      LinesConcat(Buffers("", "", "", events), FrameLines(frames[0].name, frames[0].payload), AllLines(frames[1..]));
      var more := events + [Expected(frames[0].name, frames[0].payload)];
      FramesAreEvents(more, frames[1..]);
      assert more + AllExpected(frames[1..]) == events + AllExpected(frames);
    }
  }

  lemma {:induction false} NoByteOrderMark(frames: seq<Sent>)
    ensures !HasPrefix(Stream(frames), BYTE_ORDER_MARK)
  {
    if frames != [] {
      var first := FrameLines(frames[0].name, frames[0].payload);
      var c := if frames[0].name != "" then 'e' else 'd';
      assert first[0][0] == c;
      assert JoinLines(first) == first[0] + "\n" + JoinLines(first[1..]);
      var s := Stream(frames);
      assert s[0] == c;
    }
  }

  /** Reading back any sequence of frames gives one event per frame, in order, with the given name
      and the payload with its line endings normalised. */
  lemma {:induction false} StreamRoundTrips(frames: seq<Sent>)
    requires forall i :: 0 <= i < |frames| ==> OneLine(frames[i].name)
    ensures ParseStream(Stream(frames)) == AllExpected(frames)
  {
    hide StreamLines, Lines, AllLines, JoinLines, HasPrefix, Stream;
    NoByteOrderMark(frames);
    StreamIsJoined(frames);
    AllLinesOneLine(frames);
    StreamLinesOfJoined(AllLines(frames));
    FramesAreEvents([], frames);
    assert [] + AllExpected(frames) == AllExpected(frames);
  }
}
