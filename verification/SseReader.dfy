/**
 The event-stream reader of the attach client
 (packages/h2a-runtime/src/attach.ts): bytes arrive in chunks and pass through one
 streaming decoder, complete frames are parsed out of a buffer and the rest is
 kept for the next chunk.
 */
module SseReader {
  import opened Common
  import opened TextSplit
  import opened Utf8

  datatype SseEvent = SseEvent(name: Option<string>, data: string)
  datatype Fields = Fields(name: Option<string>, data: seq<string>)

  const FRAME_END := "\n\n"

  /** The lines of `s`: at least one, the last possibly empty. */
  function Lines(s: string): seq<string> {
    Split(s, "\n").parts + [Split(s, "\n").rest]
  }

  /** The last `event:` line names the frame, the `data:` lines are collected. */
  function ReadLine(f: Fields, line: string): Fields {
    if "event:" <= line then f.(name := Some(Trim(line[6..])))
    else if "data:" <= line then f.(data := f.data + [Trim(line[5..])])
    else f
  }

  function ReadLines(lines: seq<string>): Fields {
    if lines == [] then Fields(None, [])
    else ReadLine(ReadLines(lines[..|lines| - 1]), lines[|lines| - 1])
  }

  function JoinLines(lines: seq<string>): string {
    if |lines| == 0 then "" else if |lines| == 1 then lines[0] else lines[0] + "\n" + JoinLines(lines[1..])
  }

  /** The event of one complete frame; a blank frame or one without data yields none. */
  function FrameEvents(frame: string): seq<SseEvent> {
    if Blank(frame) then []
    else
      var f := ReadLines(Lines(frame));
      if f.data == [] then [] else [SseEvent(f.name, JoinLines(f.data))]
  }

  function EventsOf(frames: seq<string>): seq<SseEvent> {
    if frames == [] then []
    else EventsOf(frames[..|frames| - 1]) + FrameEvents(frames[|frames| - 1])
  }

  method ReadFrame(frame: string) returns (events: seq<SseEvent>)
    ensures events == FrameEvents(frame)
  {
    if Blank(frame) {
      return [];
    }
    var name: Option<string> := None;
    var data: seq<string> := [];
    var lines := Lines(frame);
    for i := 0 to |lines|
      invariant Fields(name, data) == ReadLines(lines[..i])
    {
      var line := lines[i];
      assert lines[..i + 1][..i] == lines[..i];
      if "event:" <= line {
        name := Some(Trim(line[6..]));
      } else if "data:" <= line {
        data := data + [Trim(line[5..])];
      }
    }
    assert lines[..|lines|] == lines;
    if data == [] {
      return [];
    }
    return [SseEvent(name, JoinLines(data))];
  }

  method ParseSseEvents(buffer: string) returns (events: seq<SseEvent>, rest: string)
    ensures events == EventsOf(Split(buffer, FRAME_END).parts)
    ensures rest == Split(buffer, FRAME_END).rest
  {
    var pieces := Split(buffer, FRAME_END);
    events, rest := [], pieces.rest;
    for i := 0 to |pieces.parts|
      invariant events == EventsOf(pieces.parts[..i])
    {
      assert pieces.parts[..i + 1][..i] == pieces.parts[..i];
      var found := ReadFrame(pieces.parts[i]);
      events := events + found;
    }
    assert pieces.parts[..|pieces.parts|] == pieces.parts;
  }

  // ----- what an event says, from the lines of its frame -----

  /** Line `i` is the last of the frame that begins with `event:`. */
  ghost predicate LastNaming(lines: seq<string>, i: nat) {
    i < |lines| && "event:" <= lines[i] && forall j: nat | i < j < |lines| :: !("event:" <= lines[j])
  }

  predicate IsData(line: string) {
    "data:" <= line
  }

  ghost predicate OnlyData(lines: seq<string>, at: seq<nat>) {
    forall k | 0 <= k < |at| :: at[k] < |lines| && IsData(lines[at[k]])
  }

  ghost predicate AllData(lines: seq<string>, at: seq<nat>) {
    forall i: nat | i < |lines| && IsData(lines[i]) :: i in at
  }

  ghost predicate Ascending(at: seq<nat>) {
    forall k, m | 0 <= k < m < |at| :: at[k] < at[m]
  }

  /** `at` lists the lines that begin with `data:`, in their order. */
  ghost predicate DataLinesAt(lines: seq<string>, at: seq<nat>) {
    OnlyData(lines, at) && AllData(lines, at) && Ascending(at)
  }

  /** `data` are the texts after `data:`, trimmed, line by line. */
  ghost predicate DataOf(lines: seq<string>, data: seq<string>) {
    exists at: seq<nat> :: DataLinesAt(lines, at) && Shows(lines, at, data)
  }

  ghost predicate Shows(lines: seq<string>, at: seq<nat>, data: seq<string>) {
    && |at| == |data|
    && forall k | 0 <= k < |at| :: at[k] < |lines| && 5 <= |lines[at[k]]| && data[k] == Trim(lines[at[k]][5..])
  }

  ghost predicate NameOf(lines: seq<string>, name: Option<string>) {
    && (name.None? <==> forall i: nat | i < |lines| :: !("event:" <= lines[i]))
    && (name.Some? ==> exists i: nat :: LastNaming(lines, i) && name.value == Trim(lines[i][6..]))
  }

  lemma PrefixesDiffer(line: string)
    ensures !("event:" <= line && "data:" <= line)
  {
    assert "event:"[0] != "data:"[0];
  }

  lemma {:induction false} FieldsAre(lines: seq<string>)
    ensures NameOf(lines, ReadLines(lines).name) && DataOf(lines, ReadLines(lines).data)
  {
    hide Trim, NameOf, DataOf;
    if lines == [] {
      NoFields();
    } else {
      var n := |lines| - 1;
      FieldsAre(lines[..n]);
      PrefixesDiffer(lines[n]);
      NameStep(lines, ReadLines(lines[..n]).name);
      DataStep(lines, ReadLines(lines[..n]).data);
    }
  }

  lemma NoFields()
    ensures NameOf([], None) && DataOf([], [])
  {
    var at: seq<nat> := [];
    assert DataLinesAt([], at);
  }

  lemma NameStep(lines: seq<string>, name: Option<string>)
    requires lines != [] && NameOf(lines[..|lines| - 1], name)
    ensures var last := lines[|lines| - 1];
            NameOf(lines, if "event:" <= last then Some(Trim(last[6..])) else name)
  {
    hide Trim;
    var n := |lines| - 1;
    forall i | 0 <= i < n
      ensures lines[..n][i] == lines[i]
    {
    }
    if "event:" <= lines[n] {
      assert LastNaming(lines, n);
    } else if name.Some? {
      var i: nat :| LastNaming(lines[..n], i) && name.value == Trim(lines[..n][i][6..]);
      assert LastNaming(lines, i);
    }
  }

  lemma DataStep(lines: seq<string>, data: seq<string>)
    requires lines != [] && DataOf(lines[..|lines| - 1], data)
    ensures var last := lines[|lines| - 1];
            DataOf(lines, if "data:" <= last then data + [Trim(last[5..])] else data)
  {
    hide Trim, DataLinesAt, Shows;
    var n := |lines| - 1;
    var at: seq<nat> :| DataLinesAt(lines[..n], at) && Shows(lines[..n], at, data);
    LinesStep(lines, at);
    ShowsStep(lines, at, data);
  }

  lemma LinesStep(lines: seq<string>, at: seq<nat>)
    requires lines != [] && DataLinesAt(lines[..|lines| - 1], at)
    ensures var n := |lines| - 1;
            DataLinesAt(lines, if IsData(lines[n]) then at + [n] else at)
  {
    hide IsData, OnlyData, AllData, Ascending;
    OnlyStep(lines, at);
    AllStep(lines, at);
  }

  lemma OnlyStep(lines: seq<string>, at: seq<nat>)
    requires lines != [] && OnlyData(lines[..|lines| - 1], at) && Ascending(at)
    ensures var n := |lines| - 1;
            && OnlyData(lines, at) && (IsData(lines[n]) ==> OnlyData(lines, at + [n]))
            && Ascending(at + [n])
  {
    hide IsData;
    var n := |lines| - 1;
    forall k | 0 <= k < |at|
      ensures at[k] < n && IsData(lines[at[k]])
    {
      assert lines[..n][at[k]] == lines[at[k]];
    }
  }

  lemma AllStep(lines: seq<string>, at: seq<nat>)
    requires lines != [] && AllData(lines[..|lines| - 1], at)
    ensures var n := |lines| - 1;
            AllData(lines, at + [n]) && (!IsData(lines[n]) ==> AllData(lines, at))
  {
    hide IsData;
    var n := |lines| - 1;
    forall i: nat | i < n && IsData(lines[i])
      ensures i in at
    {
      assert lines[..n][i] == lines[i];
    }
  }

  lemma ShowsStep(lines: seq<string>, at: seq<nat>, data: seq<string>)
    requires lines != [] && Shows(lines[..|lines| - 1], at, data)
    ensures var n := |lines| - 1;
            && Shows(lines, at, data)
            && ("data:" <= lines[n] ==> Shows(lines, at + [n], data + [Trim(lines[n][5..])]))
  {
    hide Trim;
    var n := |lines| - 1;
    forall k | 0 <= k < |at|
      ensures at[k] < n && 5 <= |lines[at[k]]| && data[k] == Trim(lines[at[k]][5..])
    {
      assert lines[..n][at[k]] == lines[at[k]];
    }
  }

  // ----- the data as lines again -----

  lemma {:induction false} OneLine(s: string)
    requires '\n' !in s
    ensures Lines(s) == [s] && IndexOf(s, "\n").None?
  {
    NoNewline(s);
  }

  lemma {:induction false} NoNewline(s: string)
    ensures IndexOf(s, "\n").None? <==> '\n' !in s
  {
    if s != "" {
      assert s == [s[0]] + s[1..];
      NoNewline(s[1..]);
      assert "\n" <= s <==> s[0] == '\n';
    }
  }

  lemma {:induction false} TrimKeeps(s: string, c: char)
    ensures c in Trim(s) ==> c in s
  {
    TrimStartKeeps(s, c);
    TrimEndKeeps(TrimStart(s), c);
  }

  lemma {:induction false} TrimStartKeeps(s: string, c: char)
    ensures c in TrimStart(s) ==> c in s
  {
    if s != "" {
      TrimStartKeeps(s[1..], c);
    }
  }

  lemma {:induction false} TrimEndKeeps(s: string, c: char)
    ensures c in TrimEnd(s) ==> c in s
  {
    if s != "" {
      TrimEndKeeps(s[..|s| - 1], c);
    }
  }

  /** Lines joined are those lines again. */
  lemma {:induction false} LinesOfJoined(data: seq<string>)
    requires data != [] && forall k | 0 <= k < |data| :: '\n' !in data[k]
    ensures Lines(JoinLines(data)) == data
  {
    OneLine(data[0]);
    if |data| > 1 {
      LinesOfJoined(data[1..]);
      var tail := JoinLines(data[1..]);
      FirstNewline(data[0], tail);
      SplitAtFirst(data[0], "\n", tail);
      assert data[0] + "\n" + tail == JoinLines(data);
      assert data == [data[0]] + data[1..];
    }
  }

  lemma {:induction false} FirstNewline(a: string, x: string)
    requires '\n' !in a
    ensures IndexOf(a + "\n" + x, "\n") == Some(|a|)
  {
    var s := a + "\n" + x;
    if a == "" {
      assert s[..1] == "\n";
    } else {
      assert s[0] == a[0] && s[1..] == a[1..] + "\n" + x;
      FirstNewline(a[1..], x);
    }
  }

  lemma LinesHaveNoNewline(s: string, i: nat)
    requires i < |Lines(s)|
    ensures '\n' !in Lines(s)[i]
  {
    hide Split, Contains;
    SplitIsExact(s, "\n");
    NoNewline(Lines(s)[i]);
    var pieces := Split(s, "\n");
    assert i < |pieces.parts| ==> !Contains(pieces.parts[i], "\n");
    NotContained(Lines(s)[i]);
  }

  lemma NotContained(s: string)
    ensures Contains(s, "\n") <==> IndexOf(s, "\n").Some?
  {
  }

  /** The data of a frame is one line for each of its data lines. */
  lemma DataIsBare(frame: string)
    ensures var data := ReadLines(Lines(frame)).data;
            && DataOf(Lines(frame), data)
            && (data == [] <==> forall i: nat | i < |Lines(frame)| :: !IsData(Lines(frame)[i]))
            && forall k | 0 <= k < |data| :: '\n' !in data[k]
  {
    hide Lines, Trim, NameOf, IsData, Ascending;
    var lines, data := Lines(frame), ReadLines(Lines(frame)).data;
    FieldsAre(lines);
    var at: seq<nat> :| DataLinesAt(lines, at) && Shows(lines, at, data);
    assert data != [] ==> IsData(lines[at[0]]);
    forall k | 0 <= k < |data|
      ensures '\n' !in data[k]
    {
      LinesHaveNoNewline(frame, at[k]);
      TrimKeeps(lines[at[k]][5..], '\n');
    }
  }

  /** A frame has an event exactly if it is not blank and has a data line.  The event is
      named by the last `event:` line, and the lines of its data are the texts of the
      `data:` lines, each trimmed, in their order. */
  lemma EventOfFrame(frame: string)
    ensures |FrameEvents(frame)| <= 1
    ensures FrameEvents(frame) == [] <==>
              Blank(frame) || forall i: nat | i < |Lines(frame)| :: !IsData(Lines(frame)[i])
    ensures FrameEvents(frame) != [] ==>
              && NameOf(Lines(frame), FrameEvents(frame)[0].name)
              && DataOf(Lines(frame), Lines(FrameEvents(frame)[0].data))
  {
    hide Lines, Trim, NameOf, DataOf, Blank, IsData;
    FieldsAre(Lines(frame));
    DataIsBare(frame);
    if ReadLines(Lines(frame)).data != [] {
      LinesOfJoined(ReadLines(Lines(frame)).data);
    }
  }

  lemma EventsUnfold(frames: seq<string>)
    requires frames != []
    ensures EventsOf(frames) == EventsOf(frames[..|frames| - 1]) + FrameEvents(frames[|frames| - 1])
  {
  }

  lemma Regroup(a: seq<SseEvent>, b: seq<SseEvent>, c: seq<SseEvent>)
    ensures (a + b) + c == a + (b + c)
  {
  }

  lemma {:induction false} EventsAppend(a: seq<string>, b: seq<string>)
    ensures EventsOf(a + b) == EventsOf(a) + EventsOf(b)
  {
    hide FrameEvents;
    if b == [] {
      assert a + b == a;
    } else {
      var n := |b| - 1;
      EventsAppend(a, b[..n]);
      EventsUnfold(a + b);
      EventsUnfold(b);
      assert (a + b)[..|a + b| - 1] == a + b[..n];
      Regroup(EventsOf(a), EventsOf(b[..n]), FrameEvents(b[n]));
    }
  }

  // ----- the streaming decoder -----

  const BYTE_ORDER_MARK: char := '\U{FEFF}'

  /** One decoder serves all streams of an attachment; it never flushes, and drops a
      byte order mark only from the first text it gives out. */
  datatype Decoder = Decoder(state: State, started: bool) {
    function Keep(text: string): string {
      if !started && text != "" && text[0] == BYTE_ORDER_MARK then text[1..] else text
    }

    function After(bytes: seq<Byte>): Decoder {
      Decoder(FeedAll(state, bytes).state, started || FeedAll(state, bytes).out != "")
    }

    function Text(bytes: seq<Byte>): string {
      Keep(FeedAll(state, bytes).out)
    }
  }

  const NEW_DECODER := Decoder(Ready, false)

  /** Decoding in two steps gives the text of one, wherever the cut is. */
  lemma DecoderAppend(d: Decoder, a: seq<Byte>, b: seq<Byte>)
    ensures d.After(a + b) == d.After(a).After(b)
    ensures d.Text(a + b) == d.Text(a) + d.After(a).Text(b)
  {
    hide FeedAll;
    FeedAppend(d.state, a, b);
    var first := FeedAll(d.state, a).out;
    assert first == "" ==> first + FeedAll(d.After(a).state, b).out == FeedAll(d.After(a).state, b).out;
  }

  // ----- one stream -----

  datatype Delivery = Delivery(decoder: Decoder, events: seq<SseEvent>, buffer: string)

  /** The delivery of a stream as a function of its chunks, chunk by chunk. */
  function Deliver(d: Decoder, chunks: seq<seq<Byte>>): Delivery {
    if chunks == [] then Delivery(d, [], "")
    else
      var before := Deliver(d, chunks[..|chunks| - 1]);
      var chunk := chunks[|chunks| - 1];
      var pieces := Split(before.buffer + before.decoder.Text(chunk), FRAME_END);
      Delivery(before.decoder.After(chunk), before.events + EventsOf(pieces.parts), pieces.rest)
  }

  /** The buffer loop over one open stream. */
  method ReadStream(d: Decoder, chunks: seq<seq<Byte>>)
    returns (decoder: Decoder, events: seq<SseEvent>, buffer: string)
    ensures Delivery(decoder, events, buffer) == Deliver(d, chunks)
  {
    decoder, events, buffer := d, [], "";
    for i := 0 to |chunks|
      invariant Delivery(decoder, events, buffer) == Deliver(d, chunks[..i])
    {
      hide Split, EventsOf, FeedAll;
      assert chunks[..i + 1][..i] == chunks[..i];
      buffer := buffer + decoder.Text(chunks[i]);
      decoder := decoder.After(chunks[i]);
      var found;
      found, buffer := ParseSseEvents(buffer);
      events := events + found;
    }
    assert chunks[..|chunks|] == chunks;
  }

  /** Chunk by chunk the stream delivers the frames of its whole text, even where a
      chunk ends inside a character. */
  lemma {:induction false} DeliverIsWholeText(d: Decoder, chunks: seq<seq<Byte>>)
    ensures var text := Split(d.Text(Flatten(chunks)), FRAME_END);
            Deliver(d, chunks) == Delivery(d.After(Flatten(chunks)), EventsOf(text.parts), text.rest)
  {
    hide FeedAll, Split;
    if chunks != [] {
      var n := |chunks| - 1;
      DeliverIsWholeText(d, chunks[..n]);
      var bytes := Flatten(chunks[..n]);
      DecoderAppend(d, bytes, chunks[n]);
      var text, chunk := d.Text(bytes), d.After(bytes).Text(chunks[n]);
      SplitAppend(text, chunk, FRAME_END);
      EventsAppend(Split(text, FRAME_END).parts, Split(Split(text, FRAME_END).rest + chunk, FRAME_END).parts);
    } else {
      NothingRead(d);
    }
  }

  lemma NothingRead(d: Decoder)
    ensures d.After([]) == d && d.Text([]) == "" && Split("", FRAME_END) == Pieces([], "")
  {
    NothingFed(d.state);
  }

  /** Any two ways of cutting the same bytes deliver the same events and keep the same
      rest back. */
  lemma ChunkingIsInvisible(d: Decoder, chunks: seq<seq<Byte>>, others: seq<seq<Byte>>)
    requires Flatten(chunks) == Flatten(others)
    ensures Deliver(d, chunks) == Deliver(d, others)
  {
    DeliverIsWholeText(d, chunks);
    DeliverIsWholeText(d, others);
  }

  /** The text of a stream: its encoding, read by a fresh decoder, gives it back but
      for a leading byte order mark. */
  lemma WholeTextIsRead(text: string)
    ensures NEW_DECODER.Text(Encode(text)) == NEW_DECODER.Keep(text)
    ensures NEW_DECODER.After(Encode(text)).state == Ready
  {
    hide FeedAll, Encode;
    DecodeOfEncode(text);
  }

  /** A reopened stream starts with an empty buffer but with the decoder of the one
      before: it reads as from a decoder between characters if and only if the one
      before did not break off inside a character; otherwise a replacement character
      comes first. */
  lemma ReopenedReadsAfreshIff(d: Decoder, bytes: seq<Byte>)
    requires d.started && bytes != [] && !Continuation(bytes[0])
    ensures d.Text(bytes) == Decoder(Ready, true).Text(bytes) <==> d.state == Ready
    ensures d.state != Ready ==> d.Text(bytes) == [REPLACEMENT] + Decoder(Ready, true).Text(bytes)
  {
    hide FeedAll;
    FeedGivenUp(d.state, bytes);
    var alone := FeedAll(Ready, bytes).out;
    assert d.state != Ready ==> |[REPLACEMENT] + alone| > |alone|;
  }
}
