/**
 The runner's closures over their shared variables
 (packages/h2a-runtime/src/claude-code-cli-runner.ts, `runInternal`): stdout and
 close handlers, frame parser, queue and consumer loop, updating the fields of
 one run.  Every method is the step of module RunnerProtocol, or the part of it
 in module RunnerReader, on the state the fields stand for.
 */
module ClaudeRun {
  import opened Common
  import opened TextSplit
  import opened RunnerReader
  import Utf8
  import opened RunnerProtocol

  lemma {:induction false} ItemsAppend(a: seq<Event>, b: seq<Event>)
    ensures Items(a + b) == Items(a) + Items(b)
  {
    if a == [] {
      assert a + b == b;
    } else {
      assert (a + b)[1..] == a[1..] + b;
      ItemsAppend(a[1..], b);
    }
  }

  lemma PushTwice(queue: seq<Item>, a: seq<Event>, b: seq<Event>)
    ensures (queue + Items(a)) + Items(b) == queue + Items(a + b)
  {
    ItemsAppend(a, b);
  }

  lemma BlocksTail(p: Parser, content: seq<Block>, i: nat)
    requires i < |content|
    ensures var first := BlockStep(p, content[i]);
            var later := Blocks(first.parser, content[i + 1..]);
            Blocks(p, content[i..]) ==
              if content[i].BadBlock? then first else Pushed(later.parser, first.events + later.events)
  {
    assert content[i..][1..] == content[i + 1..];
  }

  class Session {
    const json: Json
    const limits: Limits

    var stdoutBuffer: string
    var totalBytesReceived: nat
    var pendingResult: Option<Outcome>
    var terminalSeen: bool
    var streamFailed: bool
    var toolUseSeen: bool
    var partialToolInputs: map<int, Slot>

    var queue: seq<Item>
    var phase: Phase
    var aborted: bool
    var earlyClosed: bool

    var position: Position
    var yielded: seq<Event>

    ghost function ParserNow(): Parser
      reads this
    {
      Parser(pendingResult, terminalSeen, streamFailed, toolUseSeen, partialToolInputs)
    }

    ghost function Now(): State
      reads this
    {
      State(Reader(ParserNow(), stdoutBuffer, totalBytesReceived), phase, queue, position, yielded,
            aborted, earlyClosed)
    }

    constructor (json: Json, limits: Limits)
      ensures this.json == json && this.limits == limits && Now() == BEGIN
    {
      this.json, this.limits := json, limits;
      stdoutBuffer, totalBytesReceived := "", 0;
      pendingResult, terminalSeen, streamFailed, toolUseSeen, partialToolInputs := None, false, false, false, map[];
      queue, phase, aborted, earlyClosed := [], Open, false, false;
      position, yielded := Top, [];
    }

    method Push(event: Event)
      modifies `queue
      ensures queue == old(queue) + Items([event])
    {
      queue := queue + [Item(event)];
      assert Items([event]) == [Item(event)] + Items([]);
    }

    method FailFrame()
      modifies `streamFailed, `queue
      ensures streamFailed && queue == old(queue) + Items([ErrorEvent])
    {
      streamFailed := true;
      Push(ErrorEvent);
    }

    // ----- the frame parser -----

    method ParseBlock(block: Block)
      modifies `streamFailed, `toolUseSeen, `queue
      ensures ParserNow() == BlockStep(old(ParserNow()), block).parser
      ensures queue == old(queue) + Items(BlockStep(old(ParserNow()), block).events)
    {
      match block {
        case TextBlock(text) =>
          if text != "" {
            Push(TextDelta(text));
          }
        case ToolBlock(id, name, input) =>
          toolUseSeen := true;
          Push(ToolUse(id, name, input));
        case Thinking =>
        case BadBlock => FailFrame();
      }
    }

    method ParseAssistantMessage(content: seq<Block>)
      modifies `streamFailed, `toolUseSeen, `queue
      ensures ParserNow() == Blocks(old(ParserNow()), content).parser
      ensures queue == old(queue) + Items(Blocks(old(ParserNow()), content).events)
    {
      ghost var all := Blocks(ParserNow(), content);
      ghost var pushed: seq<Event> := [];
      var i := 0;
      assert content[0..] == content;
      while i < |content|
        invariant 0 <= i <= |content|
        invariant queue == old(queue) + Items(pushed)
        invariant var rest := Blocks(ParserNow(), content[i..]);
                  all == Pushed(rest.parser, pushed + rest.events)
      {
        ghost var step := BlockStep(ParserNow(), content[i]);
        BlocksTail(ParserNow(), content, i);
        PushTwice(old(queue), pushed, step.events);
        Regroup(pushed, step.events, Blocks(step.parser, content[i + 1..]).events);
        ParseBlock(content[i]);
        pushed := pushed + step.events;
        if content[i].BadBlock? {
          return;
        }
        i := i + 1;
      }
      assert pushed + [] == pushed;
    }

    method ParseStreamEvent(inner: Inner)
      modifies `streamFailed, `toolUseSeen, `partialToolInputs, `queue
      ensures ParserNow() == InnerStep(json, old(ParserNow()), inner).parser
      ensures queue == old(queue) + Items(InnerStep(json, old(ParserNow()), inner).events)
    {
      match inner {
        case TextPart(text) =>
          if text != "" {
            Push(TextDelta(text));
          }
        case JsonPart(index, part) =>
          if index in partialToolInputs {
            var slot := partialToolInputs[index];
            partialToolInputs := partialToolInputs[index := slot.(json := slot.json + part)];
          }
        case ToolStart(index, id, name) =>
          if index >= 0 {
            partialToolInputs := partialToolInputs[index := Slot(id, name, "")];
          }
        case BlockStop(index) =>
          if index >= 0 && index in partialToolInputs {
            var slot := partialToolInputs[index];
            partialToolInputs := partialToolInputs - {index};
            if slot.json != "" {
              match json.input(slot.json) {
                case None =>
                  FailFrame();
                case Some(parsed) =>
                  toolUseSeen := true;
                  Push(ToolUse(slot.id, slot.name, parsed));
              }
            }
          }
        case Hint =>
      }
    }

    method ParseResult(success: bool, usage: UsageField)
      modifies `terminalSeen, `streamFailed, `pendingResult, `queue
      ensures ParserNow() == ResultStep(old(ParserNow()), success, usage).parser
      ensures queue == old(queue) + Items(ResultStep(old(ParserNow()), success, usage).events)
    {
      if terminalSeen {
        FailFrame();
        return;
      }
      terminalSeen := true;
      if !success {
        FailFrame();
        return;
      }
      var counted: Option<Usage> := None;
      if !usage.NoUsage? {
        if usage.BadUsage? {
          FailFrame();
          return;
        }
        counted := Some(usage.usage);
      }
      pendingResult := Some(Outcome(if toolUseSeen then ToolCalls else Stop, counted));
    }

    method ParseLine(line: string)
      modifies `terminalSeen, `streamFailed, `toolUseSeen, `pendingResult, `partialToolInputs, `queue
      ensures ParserNow() == LineStep(json, old(ParserNow()), line).parser
      ensures queue == old(queue) + Items(LineStep(json, old(ParserNow()), line).events)
    {
      var trimmed := Trim(line);
      if Blank(line) {
        return;
      }
      var frame := json.frame(trimmed);
      if frame.NotAFrame? || terminalSeen {
        FailFrame();
        return;
      }
      if frame.Ignored? {
        return;
      }
      if frame.Assistant? && frame.content.Some? {
        ParseAssistantMessage(frame.content.value);
      } else if frame.StreamEvent? && frame.event.Some? {
        ParseStreamEvent(frame.event.value);
      } else if frame.ResultFrame? {
        ParseResult(frame.success, frame.usage);
      } else {
        FailFrame();
      }
    }

    // ----- the child's events -----

    /** One complete line; `stopped` when it is too long. */
    method TakeLine(line: string, ghost run: LineRun, ghost before: seq<Item>) returns (stopped: bool)
      requires run == LineRun(Pushed(ParserNow(), run.pushed.events), false)
      requires queue == before + Items(run.pushed.events)
      modifies `terminalSeen, `streamFailed, `toolUseSeen, `pendingResult, `partialToolInputs, `queue
      ensures var next := AddLine(json, limits.maxFrameBytes, run, line);
              && stopped == next.stopped && ParserNow() == next.pushed.parser
              && queue == before + Items(next.pushed.events)
    {
      stopped := Bytes(line) > limits.maxFrameBytes;
      if stopped {
        PushTwice(before, run.pushed.events, [ErrorEvent]);
        FailFrame();
      } else {
        PushTwice(before, run.pushed.events, LineStep(json, ParserNow(), line).events);
        ParseLine(line);
      }
    }

    method ParseLines(lines: seq<string>)
      modifies `terminalSeen, `streamFailed, `toolUseSeen, `pendingResult, `partialToolInputs, `queue
      ensures var run := LinesStep(json, limits.maxFrameBytes, old(ParserNow()), lines);
              ParserNow() == run.pushed.parser && queue == old(queue) + Items(run.pushed.events)
    {
      ghost var start := ParserNow();
      for i := 0 to |lines|
        invariant var run := LinesStep(json, limits.maxFrameBytes, start, lines[..i]);
                  run.pushed.parser == ParserNow() && !run.stopped && queue == old(queue) + Items(run.pushed.events)
      {
        ghost var run := LinesStep(json, limits.maxFrameBytes, start, lines[..i]);
        assert lines[..i + 1][..i] == lines[..i];
        var stopped := TakeLine(lines[i], run, old(queue));
        if stopped {
          StoppedRunIgnoresTheRest(json, limits.maxFrameBytes, start, lines, i + 1);
          return;
        }
      }
      assert lines[..|lines|] == lines;
    }

    method ReadChunk(chunk: seq<Utf8.Byte>)
      modifies this
      ensures var read := DataStep(json, limits, old(Now()).reader, chunk);
              Now() == old(Now()).(reader := read.reader, queue := old(queue) + Items(read.events))
    {
      hide LineStep, AddLine, Split, Bytes;
      var total := totalBytesReceived + |chunk|;
      totalBytesReceived := total;
      if total > limits.maxTotalBytes {
        FailFrame();
      } else {
        var pieces := Split(stdoutBuffer + Utf8.Decode(chunk), "\n");
        stdoutBuffer := pieces.rest;
        ParseLines(pieces.parts);
      }
    }

    method OnStdout(chunk: seq<Utf8.Byte>)
      requires phase.Open?
      modifies this
      ensures Now() == Next(json, limits, old(Now()), Data(chunk))
    {
      ReadChunk(chunk);
    }

    method OnChildError()
      modifies this
      ensures Now() == Next(json, limits, old(Now()), ChildError)
    {
      FailFrame();
    }

    method OnCloseBegins(exitZero: bool, credentialIntact: bool)
      requires phase.Open?
      modifies this
      ensures Now() == Next(json, limits, old(Now()), CloseBegins(exitZero, credentialIntact))
    {
      if !Blank(stdoutBuffer) {
        ParseLine(stdoutBuffer);
      }
      phase := Closing(exitZero, credentialIntact);
    }

    method OnCloseEnds(cleanupOk: bool)
      requires phase.Closing?
      modifies this
      ensures Now() == Next(json, limits, old(Now()), CloseEnds(cleanupOk))
    {
      var exitAgreement := phase.exitZero && !streamFailed && pendingResult.Some? && cleanupOk;
      var agreed := exitAgreement && phase.credentialIntact;
      if agreed {
        Push(Result(pendingResult.value));
      } else if !streamFailed {
        Push(ErrorEvent);
      }
      queue := queue + [Done];
      phase := Closed(phase.exitZero, phase.credentialIntact, cleanupOk, agreed);
    }

    // ----- the caller and the consumer -----

    method OnAbort()
      modifies this
      ensures Now() == Next(json, limits, old(Now()), Abort)
    {
      aborted := true;
    }

    /** One turn of the consumer loop: up to its next await or yield. */
    method Turn()
      modifies this
      ensures Now() == Next(json, limits, old(Now()), Consume)
    {
      match position {
        case Finished =>
        case Top =>
          if earlyClosed {
            position := Finished;
          } else if aborted {
            yielded := yielded + [ErrorEvent];
            position := Finished;
          } else {
            position := if queue == [] then Waiting else Draining;
          }
        case Waiting =>
          if queue != [] || aborted || earlyClosed {
            position := Draining;
          }
        case Draining =>
          if queue == [] {
            position := Top;
            return;
          }
          var item := queue[0];
          queue := queue[1..];
          match item {
            case Done => position := Finished;
            case Item(event) =>
              yielded := yielded + [event];
              if event.Terminal() {
                position := Finished;
              }
          }
      }
    }
  }

  lemma {:induction false} StoppedRunIgnoresTheRest(json: Json, max: int, p: Parser, lines: seq<string>, k: nat)
    requires k <= |lines| && LinesStep(json, max, p, lines[..k]).stopped
    ensures LinesStep(json, max, p, lines) == LinesStep(json, max, p, lines[..k])
  {
    LinesAppend(json, max, p, lines[..k], lines[k..]);
    assert lines[..k] + lines[k..] == lines;
  }
}
