/**
 What the CLI runner makes of the child's stdout
 (packages/h2a-runtime/src/claude-code-cli-runner.ts): a line splitter over a
 bounded buffer and a frame parser that decides which events reach the queue.
 JSON parsing is a parameter; a frame is what parsing and the type checks of
 the runner leave to distinguish.
 */
module RunnerReader {
  import opened Common
  import opened TextSplit
  import opened Utf8

  datatype Finish = ToolCalls | Stop
  datatype Usage = Usage(inputTokens: Option<int>, outputTokens: Option<int>)

  datatype Outcome = Outcome(finish: Finish, usage: Option<Usage>)

  datatype Event =
    | TextDelta(text: string)
    | ToolUse(id: string, name: string, input: string)
    | Result(outcome: Outcome)
    | ErrorEvent
  {
    predicate Terminal() {
      Result? || ErrorEvent?
    }
  }

  /** A content block of an assistant message; `BadBlock` is any other shape. */
  datatype Block = TextBlock(text: string) | ToolBlock(id: string, name: string, input: string) | Thinking | BadBlock

  /** An inner stream event; `Hint` is everything that has no effect. */
  datatype Inner =
    | TextPart(text: string)
    | JsonPart(index: int, json: string)
    | ToolStart(index: int, id: string, name: string)
    | BlockStop(index: int)
    | Hint

  datatype UsageField = NoUsage | BadUsage | Counts(usage: Usage)

  datatype Frame =
    | NotAFrame
    | Ignored
    | Assistant(content: Option<seq<Block>>)
    | StreamEvent(event: Option<Inner>)
    | ResultFrame(success: bool, usage: UsageField)
    | ErrorFrame
    | UnknownFrame

  /** The two uses of JSON.parse: a trimmed line, and streamed tool input. */
  datatype Json = Json(frame: string -> Frame, input: string -> Option<string>)

  datatype Slot = Slot(id: string, name: string, json: string)

  /** Frame-order state of the parser. */
  datatype Parser = Parser(
    pendingResult: Option<Outcome>, terminalSeen: bool, failed: bool, toolUseSeen: bool, slots: map<int, Slot>)

  const START := Parser(None, false, false, false, map[])

  /** A parser and the events it has just pushed. */
  datatype Pushed = Pushed(parser: Parser, events: seq<Event>)

  function Fail(p: Parser): Pushed {
    Pushed(p.(failed := true), [ErrorEvent])
  }

  // ----- one frame -----

  function BlockStep(p: Parser, block: Block): Pushed {
    match block
    case TextBlock(text) => Pushed(p, if text == "" then [] else [TextDelta(text)])
    case ToolBlock(id, name, input) => Pushed(p.(toolUseSeen := true), [ToolUse(id, name, input)])
    case Thinking => Pushed(p, [])
    case BadBlock => Fail(p)
  }

  /** The blocks of one message in order, up to the first bad one. */
  function Blocks(p: Parser, content: seq<Block>): Pushed
    decreases content
  {
    if content == [] then Pushed(p, [])
    else
      var first := BlockStep(p, content[0]);
      if content[0].BadBlock? then first
      else
        var later := Blocks(first.parser, content[1..]);
        Pushed(later.parser, first.events + later.events)
  }

  function InnerStep(json: Json, p: Parser, inner: Inner): Pushed {
    match inner
    case TextPart(text) => Pushed(p, if text == "" then [] else [TextDelta(text)])
    case JsonPart(index, part) =>
      if index in p.slots
      then Pushed(p.(slots := p.slots[index := p.slots[index].(json := p.slots[index].json + part)]), [])
      else Pushed(p, [])
    case ToolStart(index, id, name) =>
      if index < 0 then Pushed(p, []) else Pushed(p.(slots := p.slots[index := Slot(id, name, "")]), [])
    case BlockStop(index) =>
      if index < 0 || index !in p.slots then Pushed(p, [])
      else
        var slot := p.slots[index];
        var rest := p.(slots := p.slots - {index});
        if slot.json == "" then Pushed(rest, [])
        else
          (match json.input(slot.json)
           case None => Fail(rest)
           case Some(input) => Pushed(rest.(toolUseSeen := true), [ToolUse(slot.id, slot.name, input)]))
    case Hint => Pushed(p, [])
  }

  function FinishOf(p: Parser): Finish {
    if p.toolUseSeen then ToolCalls else Stop
  }

  function ResultStep(p: Parser, success: bool, usage: UsageField): Pushed {
    var seen := p.(terminalSeen := true);
    if p.terminalSeen then Fail(p)
    else if !success || usage.BadUsage? then Fail(seen)
    else
      Pushed(seen.(pendingResult :=
                     Some(Outcome(FinishOf(p), if usage.Counts? then Some(usage.usage) else None))), [])
  }

  function FrameStep(json: Json, p: Parser, frame: Frame): Pushed {
    if frame.NotAFrame? || p.terminalSeen then Fail(p)
    else
      match frame
      case NotAFrame => Fail(p)
      case Ignored => Pushed(p, [])
      case Assistant(content) => if content.None? then Fail(p) else Blocks(p, content.value)
      case StreamEvent(event) => if event.None? then Fail(p) else InnerStep(json, p, event.value)
      case ResultFrame(success, usage) => ResultStep(p, success, usage)
      case ErrorFrame => Fail(p)
      case UnknownFrame => Fail(p)
  }

  function LineStep(json: Json, p: Parser, line: string): Pushed {
    if Blank(line) then Pushed(p, []) else FrameStep(json, p, json.frame(Trim(line)))
  }

  // ----- lines and chunks -----

  function Utf8Size(c: char): nat {
    if c as int < 0x80 then 1 else if c as int < 0x800 then 2 else if c as int < 0x10000 then 3 else 4
  }

  function Bytes(s: string): nat {
    if s == "" then 0 else Bytes(s[..|s| - 1]) + Utf8Size(s[|s| - 1])
  }

  datatype Limits = Limits(maxFrameBytes: int, maxTotalBytes: int)

  /** Complete lines in order, up to the first one that is too long. */
  datatype LineRun = LineRun(pushed: Pushed, stopped: bool)

  function AddLine(json: Json, maxFrameBytes: int, run: LineRun, line: string): LineRun {
    if run.stopped then run
    else if Bytes(line) > maxFrameBytes then
      LineRun(Pushed(run.pushed.parser.(failed := true), run.pushed.events + [ErrorEvent]), true)
    else
      var next := LineStep(json, run.pushed.parser, line);
      LineRun(Pushed(next.parser, run.pushed.events + next.events), false)
  }

  function LinesStep(json: Json, maxFrameBytes: int, p: Parser, lines: seq<string>): LineRun {
    if lines == [] then LineRun(Pushed(p, []), false)
    else AddLine(json, maxFrameBytes, LinesStep(json, maxFrameBytes, p, lines[..|lines| - 1]), lines[|lines| - 1])
  }

  /** The whole reading side: parser, unfinished line, bytes received. */
  datatype Reader = Reader(parser: Parser, buffer: string, total: nat)

  const NEW_READER := Reader(START, "", 0)

  datatype Read = Read(reader: Reader, events: seq<Event>)

  /** Each chunk of bytes is measured as it is and decoded on its own. */
  function DataStep(json: Json, limits: Limits, r: Reader, chunk: seq<Byte>): Read {
    var total := r.total + |chunk|;
    if total > limits.maxTotalBytes then
      Read(Reader(r.parser.(failed := true), r.buffer, total), [ErrorEvent])
    else
      var pieces := Split(r.buffer + Decode(chunk), "\n");
      var run := LinesStep(json, limits.maxFrameBytes, r.parser, pieces.parts);
      Read(Reader(run.pushed.parser, pieces.rest, total), run.pushed.events)
  }

  function Feed(json: Json, limits: Limits, chunks: seq<seq<Byte>>): Read {
    if chunks == [] then Read(NEW_READER, [])
    else
      var before := Feed(json, limits, chunks[..|chunks| - 1]);
      var now := DataStep(json, limits, before.reader, chunks[|chunks| - 1]);
      Read(now.reader, before.events + now.events)
  }

  /** The last, unterminated line is parsed when the child closes. */
  function LastLine(json: Json, r: Reader): Read {
    var last := LineStep(json, r.parser, r.buffer);
    Read(r.(parser := last.parser), last.events)
  }

  // ----- what a consumer can see: everything up to the first terminal event -----

  function Visible(events: seq<Event>): seq<Event> {
    if events == [] then []
    else if events[0].Terminal() then [events[0]]
    else [events[0]] + Visible(events[1..])
  }

  predicate HasTerminal(events: seq<Event>) {
    exists i | 0 <= i < |events| :: events[i].Terminal()
  }

  lemma {:induction false} VisibleAppend(a: seq<Event>, b: seq<Event>)
    ensures HasTerminal(a) ==> Visible(a + b) == Visible(a)
    ensures !HasTerminal(a) ==> Visible(a + b) == a + Visible(b)
  {
    if a == [] {
      assert a + b == b;
    } else {
      assert (a + b)[1..] == a[1..] + b;
      VisibleAppend(a[1..], b);
      if !a[0].Terminal() {
        assert HasTerminal(a) ==> HasTerminal(a[1..]) by {
          if HasTerminal(a) {
            var i :| 0 <= i < |a| && a[i].Terminal();
            assert a[1..][i - 1].Terminal();
          }
        }
        assert HasTerminal(a[1..]) ==> HasTerminal(a) by {
          if HasTerminal(a[1..]) {
            var i :| 0 <= i < |a[1..]| && a[1..][i].Terminal();
            assert a[i + 1].Terminal();
          }
        }
      }
    }
  }

  /** A run with events pushed before it. */
  function Following(events: seq<Event>, run: LineRun): LineRun {
    LineRun(Pushed(run.pushed.parser, events + run.pushed.events), run.stopped)
  }

  lemma AddLineFollowing(json: Json, max: int, events: seq<Event>, run: LineRun, line: string)
    ensures AddLine(json, max, Following(events, run), line) == Following(events, AddLine(json, max, run, line))
  {
    var next := if Bytes(line) > max then [ErrorEvent] else LineStep(json, run.pushed.parser, line).events;
    assert (events + run.pushed.events) + next == events + (run.pushed.events + next);
  }

  lemma {:induction false} LinesAppend(json: Json, max: int, p: Parser, a: seq<string>, b: seq<string>)
    ensures var first := LinesStep(json, max, p, a);
            LinesStep(json, max, p, a + b) ==
              if first.stopped then first
              else Following(first.pushed.events, LinesStep(json, max, first.pushed.parser, b))
  {
    var first := LinesStep(json, max, p, a);
    if b == [] {
      assert a + b == a;
      assert first.pushed.events + [] == first.pushed.events;
    } else {
      var n := |b| - 1;
      LinesAppend(json, max, p, a, b[..n]);
      assert (a + b)[..|a + b| - 1] == a + b[..n];
      assert (a + b)[|a + b| - 1] == b[n];
      AddLineFollowing(json, max, first.pushed.events, LinesStep(json, max, first.pushed.parser, b[..n]), b[n]);
    }
  }

  /** Stopped line runs have failed, with the error as their last event. */
  lemma {:induction false} StoppedHasFailed(json: Json, max: int, p: Parser, lines: seq<string>)
    ensures var run := LinesStep(json, max, p, lines);
            run.stopped ==> run.pushed.parser.failed && HasTerminal(run.pushed.events)
  {
    if lines != [] {
      var n := |lines| - 1;
      StoppedHasFailed(json, max, p, lines[..n]);
      var before := LinesStep(json, max, p, lines[..n]);
      if !before.stopped && Bytes(lines[n]) > max {
        var events := LinesStep(json, max, p, lines).pushed.events;
        assert events[|events| - 1].Terminal();
      }
    }
  }

  /** The reading of a whole text at once. */
  function Whole(json: Json, limits: Limits, text: string): LineRun {
    LinesStep(json, limits.maxFrameBytes, START, Split(text, "\n").parts)
  }

  lemma FailedStays(json: Json, limits: Limits, r: Reader, chunk: seq<Byte>)
    ensures r.parser.failed ==> DataStep(json, limits, r, chunk).reader.parser.failed
  {
    if r.parser.failed {
      LinesKeepFailed(json, limits.maxFrameBytes, r.parser, Split(r.buffer + Decode(chunk), "\n").parts);
    }
  }

  lemma {:induction false} LinesKeepFailed(json: Json, max: int, p: Parser, lines: seq<string>)
    requires p.failed
    ensures LinesStep(json, max, p, lines).pushed.parser.failed
  {
    if lines != [] {
      var n := |lines| - 1;
      LinesKeepFailed(json, max, p, lines[..n]);
      var run := LinesStep(json, max, p, lines[..n]);
      if !run.stopped {
        LineKeepsFailed(json, run.pushed.parser, lines[n]);
      }
    }
  }

  predicate NoBadBlock(content: seq<Block>) {
    forall i | 0 <= i < |content| :: !content[i].BadBlock?
  }

  predicate HasToolUse(events: seq<Event>) {
    exists i | 0 <= i < |events| :: events[i].ToolUse?
  }

  /** What the blocks of one message can change: they fail exactly on a bad block
      and see a tool use exactly when they push one. */
  lemma {:induction false} BlocksOnlyAdd(p: Parser, content: seq<Block>)
    ensures var after := Blocks(p, content);
            && after.parser.failed == (p.failed || !NoBadBlock(content))
            && after.parser.toolUseSeen == (p.toolUseSeen || HasToolUse(after.events))
            && after.parser.terminalSeen == p.terminalSeen && after.parser.pendingResult == p.pendingResult
            && after.parser.slots == p.slots
            && (!NoBadBlock(content) ==> HasTerminal(after.events))
            && (NoBadBlock(content) ==> !HasTerminal(after.events))
    decreases content
  {
    if content != [] {
      assert content == [content[0]] + content[1..];
      assert NoBadBlock(content) <==> !content[0].BadBlock? && NoBadBlock(content[1..]);
      var first := BlockStep(p, content[0]);
      BlocksOnlyAdd(first.parser, content[1..]);
      HasAppend(first.events, Blocks(first.parser, content[1..]).events);
      if first.events != [] {
        assert first.events == [first.events[0]];
      }
    }
  }

  lemma HasAppend(a: seq<Event>, b: seq<Event>)
    ensures HasTerminal(a + b) == (HasTerminal(a) || HasTerminal(b))
    ensures HasToolUse(a + b) == (HasToolUse(a) || HasToolUse(b))
  {
    if HasTerminal(a) { var i :| 0 <= i < |a| && a[i].Terminal(); assert (a + b)[i].Terminal(); }
    if HasTerminal(b) { var i :| 0 <= i < |b| && b[i].Terminal(); assert (a + b)[|a| + i].Terminal(); }
    if HasToolUse(a) { var i :| 0 <= i < |a| && a[i].ToolUse?; assert (a + b)[i].ToolUse?; }
    if HasToolUse(b) { var i :| 0 <= i < |b| && b[i].ToolUse?; assert (a + b)[|a| + i].ToolUse?; }
  }

  lemma LineKeepsFailed(json: Json, p: Parser, line: string)
    ensures p.failed ==> LineStep(json, p, line).parser.failed
  {
    var frame := json.frame(Trim(line));
    if frame.Assistant? && frame.content.Some? {
      BlocksOnlyAdd(p, frame.content.value);
    }
  }

  /** Within the total byte limit, reading chunk by chunk either agrees with the
      text of all chunks exactly, or that text holds an oversized line and both show
      the same events up to and including the first terminal one. */
  lemma {:induction false} FeedIsWhole(json: Json, limits: Limits, chunks: seq<seq<Byte>>)
    requires |Flatten(chunks)| <= limits.maxTotalBytes
    ensures var read := Feed(json, limits, chunks);
            var whole := Whole(json, limits, DecodePieces(chunks));
            && read.reader.buffer == Split(DecodePieces(chunks), "\n").rest
            && read.reader.total == |Flatten(chunks)|
            && (!whole.stopped ==> read.reader.parser == whole.pushed.parser && read.events == whole.pushed.events)
            && (whole.stopped ==> read.reader.parser.failed && whole.pushed.parser.failed
                                  && HasTerminal(read.events) && HasTerminal(whole.pushed.events)
                                  && Visible(read.events) == Visible(whole.pushed.events))
  {
    hide Decode;
    if chunks != [] {
      var n := |chunks| - 1;
      var text := DecodePieces(chunks[..n]);
      var chunk := Decode(chunks[n]);
      FeedIsWhole(json, limits, chunks[..n]);
      SplitAppend(text, chunk, "\n");
      var before := Feed(json, limits, chunks[..n]);
      var wholeBefore := Whole(json, limits, text);
      var pieces := Split(before.reader.buffer + chunk, "\n");
      var parts := Split(text, "\n").parts;
      assert Split(DecodePieces(chunks), "\n").parts == parts + pieces.parts;
      LinesAppend(json, limits.maxFrameBytes, START, parts, pieces.parts);
      var now := DataStep(json, limits, before.reader, chunks[n]);
      var run := LinesStep(json, limits.maxFrameBytes, before.reader.parser, pieces.parts);
      assert now == Read(Reader(run.pushed.parser, pieces.rest, |Flatten(chunks)|), run.pushed.events);
      var events := before.events + now.events;
      if wholeBefore.stopped {
        FailedStays(json, limits, before.reader, chunks[n]);
        VisibleAppend(before.events, now.events);
        HasAppend(before.events, now.events);
      } else if run.stopped {
        StoppedHasFailed(json, limits.maxFrameBytes, before.reader.parser, pieces.parts);
        HasAppend(before.events, now.events);
      }
    }
  }

  /** Two ways of cutting the output that decode to the same text show a consumer the
      same events from the stream and from the last line, and fail or not alike. */
  lemma SameTextReadsAlike(json: Json, limits: Limits, chunks: seq<seq<Byte>>, others: seq<seq<Byte>>)
    requires Flatten(chunks) == Flatten(others) && DecodePieces(chunks) == DecodePieces(others)
    requires |Flatten(chunks)| <= limits.maxTotalBytes
    ensures var a := Feed(json, limits, chunks);
            var b := Feed(json, limits, others);
            var lastA := LastLine(json, a.reader);
            var lastB := LastLine(json, b.reader);
            && Visible(a.events + lastA.events) == Visible(b.events + lastB.events)
            && lastA.reader.parser.failed == lastB.reader.parser.failed
            && (!a.reader.parser.failed ==> a == b)
  {
    FeedIsWhole(json, limits, chunks);
    FeedIsWhole(json, limits, others);
    var a := Feed(json, limits, chunks);
    var b := Feed(json, limits, others);
    if Whole(json, limits, DecodePieces(chunks)).stopped {
      VisibleAppend(a.events, LastLine(json, a.reader).events);
      VisibleAppend(b.events, LastLine(json, b.reader).events);
      LineKeepsFailed(json, a.reader.parser, a.reader.buffer);
      LineKeepsFailed(json, b.reader.parser, b.reader.buffer);
    }
  }

  /** The text read is that of the bytes sent if and only if no chunk boundary splits a
      character; any cut like that, within the total limit, shows what the uncut output shows. */
  lemma ChunkingIsInvisible(json: Json, limits: Limits, chunks: seq<seq<Byte>>)
    requires |Flatten(chunks)| <= limits.maxTotalBytes
    ensures DecodePieces(chunks) == Decode(Flatten(chunks)) <==> !SomeCutSplits(chunks)
    ensures !SomeCutSplits(chunks) ==>
              var a := Feed(json, limits, chunks);
              var b := Feed(json, limits, [Flatten(chunks)]);
              var lastA := LastLine(json, a.reader);
              var lastB := LastLine(json, b.reader);
              && Visible(a.events + lastA.events) == Visible(b.events + lastB.events)
              && lastA.reader.parser.failed == lastB.reader.parser.failed
              && (!a.reader.parser.failed ==> a == b)
  {
    hide Feed, LastLine, Decode, SomeCutSplits, Visible;
    PiecesDecodeIff(chunks);
    FlattenOne(Flatten(chunks));
    DecodeOnePiece(Flatten(chunks));
    if !SomeCutSplits(chunks) {
      SameTextReadsAlike(json, limits, chunks, [Flatten(chunks)]);
    }
  }

  lemma {:induction false} OneLine(text: string)
    requires '\n' !in text
    ensures IndexOf(text, "\n").None? && Split(text, "\n") == Pieces([], text)
  {
    if text != "" {
      assert text == [text[0]] + text[1..];
      OneLine(text[1..]);
      assert !("\n" <= text);
    }
  }

  /** A chunk without a newline only extends the buffer. */
  lemma PartRead(json: Json, limits: Limits, r: Reader, chunk: seq<Byte>)
    requires '\n' !in r.buffer + Decode(chunk) && r.total + |chunk| <= limits.maxTotalBytes
    ensures DataStep(json, limits, r, chunk) ==
              Read(Reader(r.parser, r.buffer + Decode(chunk), r.total + |chunk|), [])
  {
    hide Decode;
    OneLine(r.buffer + Decode(chunk));
  }

  lemma EndsInError(events: seq<Event>)
    requires events != [] && events[|events| - 1] == ErrorEvent
    ensures HasTerminal(events)
  {
  }

  lemma FeedSnoc(json: Json, limits: Limits, chunks: seq<seq<Byte>>, chunk: seq<Byte>)
    ensures var before := Feed(json, limits, chunks);
            var now := DataStep(json, limits, before.reader, chunk);
            Feed(json, limits, chunks + [chunk]) == Read(now.reader, before.events + now.events)
  {
    assert (chunks + [chunk])[..|chunks|] == chunks;
  }

  /** A character cut by a chunk boundary can fail a stream that is good in one chunk. */
  lemma CutCharacterShows(json: Json, limits: Limits)
    requires limits.maxTotalBytes >= 2
    requires json.frame("\U{E9}") == Ignored && json.frame([REPLACEMENT, REPLACEMENT]) == UnknownFrame
    ensures LastLine(json, Feed(json, limits, [[0xC3, 0xA9]]).reader).events == []
    ensures LastLine(json, Feed(json, limits, [[0xC3], [0xA9]]).reader).events == [ErrorEvent]
  {
    hide Decode, DataStep, Feed, Split, Blank, Trim;
    var lead: seq<Byte>, tail: seq<Byte>, both: seq<Byte> := [0xC3], [0xA9], [0xC3, 0xA9];
    LetterDecodes();
    FeedNone(json, limits);
    assert "" + "\U{E9}" == "\U{E9}" && "" + [REPLACEMENT] == [REPLACEMENT];
    FeedSnoc(json, limits, [], both);
    PartRead(json, limits, NEW_READER, both);
    FeedSnoc(json, limits, [], lead);
    PartRead(json, limits, NEW_READER, lead);
    FeedSnoc(json, limits, [lead], tail);
    PartRead(json, limits, Reader(START, [REPLACEMENT], 1), tail);
    assert [] + [both] == [both] && [] + [lead] == [lead] && [lead] + [tail] == [lead, tail];
    var marks := [REPLACEMENT, REPLACEMENT];
    NotBlank(marks);
    NotBlank("\U{E9}");
    assert [REPLACEMENT] + [REPLACEMENT] == marks;
  }

  lemma NotBlank(text: string)
    requires text != "" && !IsSpace(text[0]) && !IsSpace(text[|text| - 1])
    ensures !Blank(text) && Trim(text) == text
  {
  }

  lemma FeedNone(json: Json, limits: Limits)
    ensures Feed(json, limits, []) == Read(NEW_READER, []) && LastLine(json, NEW_READER) == Read(NEW_READER, [])
  {
  }

  lemma {:induction false} FeedPrefix(json: Json, limits: Limits, chunks: seq<seq<Byte>>, k: nat)
    requires k <= |chunks|
    ensures Feed(json, limits, chunks[..k]).events <= Feed(json, limits, chunks).events
  {
    if k < |chunks| {
      assert chunks[..|chunks| - 1][..k] == chunks[..k];
      FeedPrefix(json, limits, chunks[..|chunks| - 1], k);
    } else {
      assert chunks[..k] == chunks;
    }
  }

  /** Beyond the total limit the cut matters: the chunk that crosses it is dropped whole,
      so what shows are the events of the chunks before it and then the error. */
  lemma BeyondTheLimit(json: Json, limits: Limits, chunks: seq<seq<Byte>>, k: nat)
    requires k < |chunks| && |Flatten(chunks[..k])| <= limits.maxTotalBytes < |Flatten(chunks[..k + 1])|
    ensures Visible(Feed(json, limits, chunks).events) ==
              Visible(Whole(json, limits, DecodePieces(chunks[..k])).pushed.events + [ErrorEvent])
  {
    hide Visible, Decode, Feed, Split, LinesStep, HasTerminal;
    var before := Feed(json, limits, chunks[..k]);
    var whole := Whole(json, limits, DecodePieces(chunks[..k]));
    assert chunks[..k + 1] == chunks[..k] + [chunks[k]] && chunks[..k + 1][..k] == chunks[..k];
    FeedSnoc(json, limits, chunks[..k], chunks[k]);
    FeedIsWhole(json, limits, chunks[..k]);
    FeedPrefix(json, limits, chunks, k + 1);
    var crossed := Feed(json, limits, chunks[..k + 1]).events;
    assert crossed == before.events + [ErrorEvent];
    assert HasTerminal(crossed) by {
      EndsInError(crossed);
    }
    var all := Feed(json, limits, chunks).events;
    assert all == crossed + all[|crossed|..];
    VisibleAppend(crossed, all[|crossed|..]);
    VisibleAppend(before.events, [ErrorEvent]);
    VisibleAppend(whole.pushed.events, [ErrorEvent]);
  }

  // ----- which outputs lead to a result -----

  /** The frames of the non-blank lines. */
  function Frames(json: Json, lines: seq<string>): seq<Frame> {
    if lines == [] then []
    else
      var n := |lines| - 1;
      Frames(json, lines[..n]) + if Blank(lines[n]) then [] else [json.frame(Trim(lines[n]))]
  }

  function FramesStep(json: Json, frames: seq<Frame>): Pushed {
    if frames == [] then Pushed(START, [])
    else
      var n := |frames| - 1;
      var before := FramesStep(json, frames[..n]);
      var next := FrameStep(json, before.parser, frames[n]);
      Pushed(next.parser, before.events + next.events)
  }

  /** Streamed tool inputs under construction, by block index. */
  function NextInputs(open: map<int, Slot>, frame: Frame): map<int, Slot> {
    if !frame.StreamEvent? || frame.event.None? then open
    else
      match frame.event.value
      case ToolStart(index, id, name) => if index < 0 then open else open[index := Slot(id, name, "")]
      case JsonPart(index, part) =>
        if index in open then open[index := open[index].(json := open[index].json + part)] else open
      case BlockStop(index) => if index < 0 then open else open - {index}
      case _ => open
  }

  function OpenInputs(json: Json, frames: seq<Frame>): map<int, Slot> {
    if frames == [] then map[]
    else NextInputs(OpenInputs(json, frames[..|frames| - 1]), frames[|frames| - 1])
  }

  /** A frame the parser takes without complaint and that does not end the run. */
  predicate Accepted(json: Json, open: map<int, Slot>, frame: Frame) {
    match frame
    case Ignored => true
    case Assistant(content) => content.Some? && NoBadBlock(content.value)
    case StreamEvent(event) =>
      event.Some? &&
      (event.value.BlockStop? && event.value.index >= 0 && event.value.index in open
       && open[event.value.index].json != "" ==>
         json.input(open[event.value.index].json).Some?)
    case _ => false
  }

  predicate AllAccepted(json: Json, frames: seq<Frame>) {
    forall i | 0 <= i < |frames| :: Accepted(json, OpenInputs(json, frames[..i]), frames[i])
  }

  predicate SuccessFrame(frame: Frame) {
    frame.ResultFrame? && frame.success && !frame.usage.BadUsage?
  }

  /** Accepted frames followed by exactly one success result. */
  predicate Complete(json: Json, frames: seq<Frame>) {
    frames != [] && AllAccepted(json, frames[..|frames| - 1]) && SuccessFrame(frames[|frames| - 1])
  }

  lemma InnerStepFacts(json: Json, p: Parser, inner: Inner)
    ensures var after := InnerStep(json, p, inner);
            && after.parser.failed == (p.failed || !Accepted(json, p.slots, StreamEvent(Some(inner))))
            && after.parser.toolUseSeen == (p.toolUseSeen || HasToolUse(after.events))
            && after.parser.terminalSeen == p.terminalSeen && after.parser.pendingResult == p.pendingResult
            && HasTerminal(after.events) == !Accepted(json, p.slots, StreamEvent(Some(inner)))
  {
    var after := InnerStep(json, p, inner);
    if after.events != [] {
      assert after.events == [after.events[0]];
    }
  }

  /** One frame, by cases: what it does to the flags and whether it pushes an error. */
  lemma FrameStepFacts(json: Json, p: Parser, frame: Frame)
    ensures var after := FrameStep(json, p, frame);
            var fine := !p.terminalSeen && (Accepted(json, p.slots, frame) || SuccessFrame(frame));
            && after.parser.failed == (p.failed || !fine)
            && HasTerminal(after.events) == !fine
            && after.parser.terminalSeen == (p.terminalSeen || frame.ResultFrame?)
            && after.parser.toolUseSeen == (p.toolUseSeen || HasToolUse(after.events))
            && (SuccessFrame(frame) && fine ==>
                  after.events == [] && after.parser.pendingResult == Some(
                    Outcome(FinishOf(p), if frame.usage.Counts? then Some(frame.usage.usage) else None)))
            && (!(SuccessFrame(frame) && fine) ==> after.parser.pendingResult == p.pendingResult)
  {
    var after := FrameStep(json, p, frame);
    if after.events == [ErrorEvent] {
      assert after.events[0].Terminal();
    }
    if !p.terminalSeen && frame.Assistant? && frame.content.Some? {
      BlocksOnlyAdd(p, frame.content.value);
    } else if !p.terminalSeen && frame.StreamEvent? && frame.event.Some? {
      InnerStepFacts(json, p, frame.event.value);
    }
  }

  lemma AcceptedSlots(json: Json, p: Parser, frame: Frame)
    requires !p.terminalSeen && Accepted(json, p.slots, frame)
    ensures FrameStep(json, p, frame).parser.slots == NextInputs(p.slots, frame)
  {
    if frame.Assistant? {
      BlocksOnlyAdd(p, frame.content.value);
    }
  }

  /** While frames are accepted the parser's slots are the open inputs. */
  lemma {:induction false} SlotsAreOpenInputs(json: Json, frames: seq<Frame>)
    requires AllAccepted(json, frames)
    ensures FramesStep(json, frames).parser.slots == OpenInputs(json, frames)
    ensures !FramesStep(json, frames).parser.terminalSeen
  {
    if frames != [] {
      var n := |frames| - 1;
      AllAcceptedSplit(json, frames);
      SlotsAreOpenInputs(json, frames[..n]);
      var p := FramesStep(json, frames[..n]).parser;
      FrameStepFacts(json, p, frames[n]);
      AcceptedSlots(json, p, frames[n]);
    }
  }

  /** The parser is running cleanly exactly on accepted frames, and holds a
      pending result exactly after a complete sequence of frames. */
  lemma {:induction false} ParserMeaning(json: Json, frames: seq<Frame>)
    ensures var all := FramesStep(json, frames);
            var p := all.parser;
            && (!p.failed && !p.terminalSeen <==> AllAccepted(json, frames))
            && (!p.failed && p.terminalSeen <==> Complete(json, frames))
            && (!p.terminalSeen ==> p.pendingResult.None?)
            && p.toolUseSeen == HasToolUse(all.events)
            && p.failed == HasTerminal(all.events)
            && (Complete(json, frames) ==> p.pendingResult == Some(
                  Outcome(if HasToolUse(all.events) then ToolCalls else Stop,
                         if frames[|frames| - 1].usage.Counts? then Some(frames[|frames| - 1].usage.usage) else None)))
  {
    if frames != [] {
      var n := |frames| - 1;
      var before := FramesStep(json, frames[..n]);
      ParserMeaning(json, frames[..n]);
      AllAcceptedSplit(json, frames);
      if AllAccepted(json, frames[..n]) {
        SlotsAreOpenInputs(json, frames[..n]);
      }
      FrameStepFacts(json, before.parser, frames[n]);
      HasAppend(before.events, FrameStep(json, before.parser, frames[n]).events);
    }
  }

  lemma AllAcceptedSplit(json: Json, frames: seq<Frame>)
    requires frames != []
    ensures var n := |frames| - 1;
            AllAccepted(json, frames) <==>
              AllAccepted(json, frames[..n]) && Accepted(json, OpenInputs(json, frames[..n]), frames[n])
  {
    var n := |frames| - 1;
    forall i | 0 <= i < n
      ensures frames[..n][..i] == frames[..i]
    {
    }
    if AllAccepted(json, frames[..n]) && Accepted(json, OpenInputs(json, frames[..n]), frames[n]) {
      forall i | 0 <= i < |frames|
        ensures Accepted(json, OpenInputs(json, frames[..i]), frames[i])
      {
        if i < n {
          assert Accepted(json, OpenInputs(json, frames[..n][..i]), frames[..n][i]);
        }
      }
    }
    if AllAccepted(json, frames) {
      forall i | 0 <= i < n
        ensures Accepted(json, OpenInputs(json, frames[..n][..i]), frames[..n][i])
      {
        assert Accepted(json, OpenInputs(json, frames[..i]), frames[i]);
      }
    }
  }

  lemma {:induction false} LinesAreFrames(json: Json, max: int, lines: seq<string>)
    ensures var run := LinesStep(json, max, START, lines);
            && run.stopped == (exists i | 0 <= i < |lines| :: Bytes(lines[i]) > max)
            && (!run.stopped ==> run.pushed == FramesStep(json, Frames(json, lines)))
  {
    if lines != [] {
      var n := |lines| - 1;
      LinesAreFrames(json, max, lines[..n]);
      var before := LinesStep(json, max, START, lines[..n]);
      if before.stopped {
        var i :| 0 <= i < |lines[..n]| && Bytes(lines[..n][i]) > max;
        assert Bytes(lines[i]) > max;
      } else {
        assert forall i | 0 <= i < n :: lines[..n][i] == lines[i];
        if !Blank(lines[n]) {
          var frames := Frames(json, lines);
          assert frames[..|frames| - 1] == Frames(json, lines[..n]);
        } else {
          assert Frames(json, lines) == Frames(json, lines[..n]);
          assert before.pushed.events + [] == before.pushed.events;
        }
      }
    }
  }

  /** The text of a run that may end in a result: no complete line is oversized
      and the lines, the unterminated one included, form a complete sequence of
      frames.  The unterminated line is not measured. */
  predicate CompleteText(json: Json, limits: Limits, text: string) {
    && (forall i | 0 <= i < |Split(text, "\n").parts| :: Bytes(Split(text, "\n").parts[i]) <= limits.maxFrameBytes)
    && Complete(json, TextFrames(json, text))
  }

  /** The frames of all lines of a text, the unterminated one included. */
  function TextFrames(json: Json, text: string): seq<Frame> {
    var pieces := Split(text, "\n");
    Frames(json, pieces.parts + [pieces.rest])
  }

  /** Output within the total limit whose text is complete. */
  predicate CompleteOutput(json: Json, limits: Limits, chunks: seq<seq<Byte>>) {
    |Flatten(chunks)| <= limits.maxTotalBytes && CompleteText(json, limits, DecodePieces(chunks))
  }

  /** The result frame that ends a complete text, as the outcome it stands for. */
  function ResultOf(json: Json, text: string, events: seq<Event>): Outcome
    requires Complete(json, TextFrames(json, text))
  {
    var frames := TextFrames(json, text);
    var usage := frames[|frames| - 1].usage;
    Outcome(if HasToolUse(events) then ToolCalls else Stop, if usage.Counts? then Some(usage.usage) else None)
  }

  /** The reader has stayed clean and holds a pending result, after the last
      line, exactly when the text received is complete; then it has pushed what its
      frames push, no terminal event among it, and the pending result tells truly
      whether a tool use was pushed. */
  lemma PendingResultIff(json: Json, limits: Limits, chunks: seq<seq<Byte>>)
    ensures var read := Feed(json, limits, chunks);
            var last := LastLine(json, read.reader);
            var events := read.events + last.events;
            var p := last.reader.parser;
            && (!p.failed && p.pendingResult.Some? <==> CompleteOutput(json, limits, chunks))
            && (CompleteOutput(json, limits, chunks) ==>
                  && !HasTerminal(events)
                  && p.pendingResult == Some(ResultOf(json, DecodePieces(chunks), events))
                  && events == FramesStep(json, TextFrames(json, DecodePieces(chunks))).events)
  {
    hide Decode, Flatten, DecodePieces, Split, Feed, LineStep, LinesStep, FramesStep, Frames, HasTerminal, HasToolUse;
    var text := DecodePieces(chunks);
    var read := Feed(json, limits, chunks);
    LineKeepsFailed(json, read.reader.parser, read.reader.buffer);
    if |Flatten(chunks)| > limits.maxTotalBytes {
      OverLimitFails(json, limits, chunks);
      FeedNone(json, limits);
    } else {
      FeedIsWhole(json, limits, chunks);
      var pieces := Split(text, "\n");
      LinesAreFrames(json, limits.maxFrameBytes, pieces.parts);
      if !Whole(json, limits, text).stopped {
        AllLinesAreFrames(json, pieces.parts, pieces.rest);
        ParserMeaning(json, TextFrames(json, text));
      }
    }
  }

  lemma AllLinesAreFrames(json: Json, parts: seq<string>, rest: string)
    ensures var before := FramesStep(json, Frames(json, parts));
            var last := LineStep(json, before.parser, rest);
            FramesStep(json, Frames(json, parts + [rest])) == Pushed(last.parser, before.events + last.events)
  {
    var all := parts + [rest];
    assert all[..|all| - 1] == parts;
    var frames := Frames(json, parts);
    var frames' := Frames(json, all);
    if Blank(rest) {
      assert frames' == frames;
      assert FramesStep(json, frames).events + [] == FramesStep(json, frames).events;
    } else {
      assert frames'[..|frames'| - 1] == frames;
    }
  }

  lemma {:induction false} OverLimitFails(json: Json, limits: Limits, chunks: seq<seq<Byte>>)
    ensures Feed(json, limits, chunks).reader.total == |Flatten(chunks)|
    ensures chunks != [] && |Flatten(chunks)| > limits.maxTotalBytes ==> Feed(json, limits, chunks).reader.parser.failed
  {
    if chunks != [] {
      var n := |chunks| - 1;
      OverLimitFails(json, limits, chunks[..n]);
      FailedStays(json, limits, Feed(json, limits, chunks[..n]).reader, chunks[n]);
    }
  }
}
