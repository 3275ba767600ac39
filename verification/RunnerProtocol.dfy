/**
 The CLI runner as a protocol between three parties
 (packages/h2a-runtime/src/claude-code-cli-runner.ts): the child, whose output,
 error and close events push on a queue; the caller, who may abort or close
 early; and the consumer loop, which takes from the queue and yields.  Any
 interleaving of their steps is a run.
 */
module RunnerProtocol {
  import opened Common
  import opened TextSplit
  import opened RunnerEvents
  import opened RunnerReader
  import Utf8

  datatype Item = Item(event: Event) | Done

  /** `Closing` is the wait for the process tree between the two halves of the close handler. */
  datatype Phase =
    | Open
    | Closing(exitZero: bool, credentialIntact: bool)
    | Closed(exitZero: bool, credentialIntact: bool, cleanupOk: bool, agreed: bool)

  /** Where the consumer loop is: at its head, waiting for a push, taking items, or returned. */
  datatype Position = Top | Waiting | Draining | Finished

  datatype State = State(
    reader: Reader, phase: Phase, queue: seq<Item>, position: Position, yielded: seq<Event>,
    aborted: bool, earlyClosed: bool)

  datatype Step =
    | Data(chunk: seq<Utf8.Byte>)
    | ChildError
    | CloseBegins(exitZero: bool, credentialIntact: bool)
    | CloseEnds(cleanupOk: bool)
    | Abort
    | EarlyClose
    | Consume

  const BEGIN := State(NEW_READER, Open, [], Top, [], false, false)

  function Items(events: seq<Event>): (items: seq<Item>)
    ensures |items| == |events| && forall i | 0 <= i < |events| :: items[i] == Item(events[i])
  {
    if events == [] then [] else [Item(events[0])] + Items(events[1..])
  }

  // ----- one step -----

  predicate Agreed(s: State, cleanupOk: bool)
    requires s.phase.Closing?
  {
    && s.phase.exitZero && s.phase.credentialIntact && cleanupOk
    && !s.reader.parser.failed && s.reader.parser.pendingResult.Some?
  }

  /** The events a step pushes; the second half of the close also pushes `Done`. */
  function Pushes(json: Json, limits: Limits, s: State, step: Step): seq<Event> {
    match step
    case Data(chunk) => if s.phase.Open? then DataStep(json, limits, s.reader, chunk).events else []
    case ChildError => [ErrorEvent]
    case CloseBegins(_, _) => if s.phase.Open? then LastLine(json, s.reader).events else []
    case CloseEnds(cleanupOk) =>
      if !s.phase.Closing? then []
      else if Agreed(s, cleanupOk) then [Result(s.reader.parser.pendingResult.value)]
      else if !s.reader.parser.failed then [ErrorEvent]
      else []
    case _ => []
  }

  function ConsumeStep(s: State): State {
    match s.position
    case Finished => s
    case Top =>
      if s.earlyClosed then s.(position := Finished)
      else if s.aborted then s.(position := Finished, yielded := s.yielded + [ErrorEvent])
      else if s.queue == [] then s.(position := Waiting)
      else s.(position := Draining)
    case Waiting =>
      if s.queue != [] || s.aborted || s.earlyClosed then s.(position := Draining) else s
    case Draining =>
      if s.queue == [] then s.(position := Top)
      else
        match s.queue[0]
        case Done => s.(queue := s.queue[1..], position := Finished)
        case Item(event) =>
          s.(queue := s.queue[1..], yielded := s.yielded + [event],
             position := if event.Terminal() then Finished else Draining)
  }

  function Next(json: Json, limits: Limits, s: State, step: Step): State {
    var queue := s.queue + Items(Pushes(json, limits, s, step));
    match step
    case Data(chunk) =>
      if s.phase.Open? then s.(reader := DataStep(json, limits, s.reader, chunk).reader, queue := queue) else s
    case ChildError =>
      s.(reader := s.reader.(parser := s.reader.parser.(failed := true)), queue := queue)
    case CloseBegins(exitZero, credentialIntact) =>
      if s.phase.Open? then
        s.(reader := LastLine(json, s.reader).reader, queue := queue, phase := Closing(exitZero, credentialIntact))
      else s
    case CloseEnds(cleanupOk) =>
      if s.phase.Closing? then
        s.(queue := queue + [Done],
           phase := Closed(s.phase.exitZero, s.phase.credentialIntact, cleanupOk, Agreed(s, cleanupOk)))
      else s
    case Abort => s.(aborted := true)
    case EarlyClose =>
      s.(aborted := true, earlyClosed := true,
         position := if s.position.Draining? then Finished else s.position)
    case Consume => ConsumeStep(s)
  }

  // ----- runs -----

  function After(json: Json, limits: Limits, steps: seq<Step>): State {
    if steps == [] then BEGIN
    else Next(json, limits, After(json, limits, steps[..|steps| - 1]), steps[|steps| - 1])
  }

  /** Everything pushed on the queue so far. */
  function History(json: Json, limits: Limits, steps: seq<Step>): seq<Event> {
    if steps == [] then []
    else
      var before := steps[..|steps| - 1];
      History(json, limits, before) + Pushes(json, limits, After(json, limits, before), steps[|steps| - 1])
  }

  /** The output received before the child closed. */
  function Output(json: Json, limits: Limits, steps: seq<Step>): seq<seq<Utf8.Byte>> {
    if steps == [] then []
    else
      var before := steps[..|steps| - 1];
      var step := steps[|steps| - 1];
      Output(json, limits, before) +
      if step.Data? && After(json, limits, before).phase.Open? then [step.chunk] else []
  }

  ghost predicate ChildErrored(steps: seq<Step>) {
    ChildError in steps
  }

  /** Every event that stands for the output, the unterminated line included. */
  function OutputEvents(json: Json, limits: Limits, chunks: seq<seq<Utf8.Byte>>): seq<Event> {
    var read := Feed(json, limits, chunks);
    read.events + LastLine(json, read.reader).events
  }

  // ----- what reading pushes -----

  predicate NoResult(events: seq<Event>) {
    forall i | 0 <= i < |events| :: !events[i].Result?
  }

  lemma {:induction false} BlocksPushNoResult(p: Parser, content: seq<Block>)
    ensures NoResult(Blocks(p, content).events)
    decreases content
  {
    if content != [] {
      BlocksPushNoResult(BlockStep(p, content[0]).parser, content[1..]);
    }
  }

  lemma LineFacts(json: Json, p: Parser, line: string)
    ensures var after := LineStep(json, p, line);
            after.parser.failed == (p.failed || HasTerminal(after.events)) && NoResult(after.events)
  {
    var frame := json.frame(Trim(line));
    if !Blank(line) {
      FrameStepFacts(json, p, frame);
      if frame.Assistant? && frame.content.Some? {
        BlocksPushNoResult(p, frame.content.value);
      }
    }
  }

  lemma {:induction false} LinesFacts(json: Json, max: int, p: Parser, lines: seq<string>)
    ensures var run := LinesStep(json, max, p, lines);
            run.pushed.parser.failed == (p.failed || HasTerminal(run.pushed.events)) && NoResult(run.pushed.events)
  {
    if lines != [] {
      var n := |lines| - 1;
      LinesFacts(json, max, p, lines[..n]);
      var before := LinesStep(json, max, p, lines[..n]).pushed;
      LineFacts(json, before.parser, lines[n]);
      HasAppend(before.events, LineStep(json, before.parser, lines[n]).events);
      HasAppend(before.events, [ErrorEvent]);
      assert [ErrorEvent][0].Terminal();
    }
  }

  lemma DataFacts(json: Json, limits: Limits, r: Reader, chunk: seq<Utf8.Byte>)
    ensures var read := DataStep(json, limits, r, chunk);
            read.reader.parser.failed == (r.parser.failed || HasTerminal(read.events)) && NoResult(read.events)
  {
    LinesFacts(json, limits.maxFrameBytes, r.parser, Split(r.buffer + Utf8.Decode(chunk), "\n").parts);
    assert [ErrorEvent][0].Terminal();
  }

  // ----- the invariant: child side -----

  /** How the reader, the history and the phase relate to the output received. */
  ghost predicate ChildInvariant(json: Json, limits: Limits, s: State, history: seq<Event>, output: seq<seq<Utf8.Byte>>,
                                 errored: bool)
  {
    var read := Feed(json, limits, output);
    match s.phase
    case Open =>
      && NoResult(history)
      && s.reader.parser.failed == HasTerminal(history)
      && (errored ==> s.reader.parser.failed)
      && (!errored ==> s.reader == read.reader && history == read.events)
    case Closing(_, _) =>
      && NoResult(history)
      && s.reader.parser.failed == HasTerminal(history)
      && (errored ==> s.reader.parser.failed)
      && (!errored ==> s.reader == LastLine(json, read.reader).reader && history == OutputEvents(json, limits, output))
    case Closed(exitZero, credentialIntact, cleanupOk, agreed) =>
      && HasTerminal(history)
      && (agreed ==>
            && exitZero && credentialIntact && cleanupOk
            && CompleteOutput(json, limits, output)
            && Visible(history) ==
                 OutputEvents(json, limits, output)
                 + [Result(ResultOf(json, Utf8.DecodePieces(output), OutputEvents(json, limits, output)))])
      && (!agreed ==>
            && NoResult(history)
            && (exitZero && credentialIntact && cleanupOk && CompleteOutput(json, limits, output) ==> errored))
  }

  lemma DataKeeps(json: Json, limits: Limits, s: State, history: seq<Event>, output: seq<seq<Utf8.Byte>>, errored: bool,
                  chunk: seq<Utf8.Byte>)
    requires ChildInvariant(json, limits, s, history, output, errored) && s.phase.Open?
    ensures var step := Data(chunk);
            ChildInvariant(json, limits, Next(json, limits, s, step), history + Pushes(json, limits, s, step),
                           output + [chunk], errored)
  {
    var pushes := DataStep(json, limits, s.reader, chunk).events;
    HasAppend(history, pushes);
    DataFacts(json, limits, s.reader, chunk);
    assert (output + [chunk])[..|output + [chunk]| - 1] == output;
  }

  lemma CloseBeginsKeeps(json: Json, limits: Limits, s: State, history: seq<Event>, output: seq<seq<Utf8.Byte>>,
                         errored: bool,
                         step: Step)
    requires ChildInvariant(json, limits, s, history, output, errored) && s.phase.Open? && step.CloseBegins?
    ensures ChildInvariant(json, limits, Next(json, limits, s, step), history + Pushes(json, limits, s, step),
                           output, errored)
  {
    HasAppend(history, LastLine(json, s.reader).events);
    LineFacts(json, s.reader.parser, s.reader.buffer);
  }

  lemma CloseEndsKeeps(json: Json, limits: Limits, s: State, history: seq<Event>, output: seq<seq<Utf8.Byte>>,
                       errored: bool,
                       step: Step)
    requires ChildInvariant(json, limits, s, history, output, errored) && s.phase.Closing? && step.CloseEnds?
    ensures ChildInvariant(json, limits, Next(json, limits, s, step), history + Pushes(json, limits, s, step),
                           output, errored)
  {
    var pushes := Pushes(json, limits, s, step);
    HasAppend(history, pushes);
    PendingResultIff(json, limits, output);
    if pushes != [] {
      assert pushes == [pushes[0]] && pushes[0].Terminal();
    }
    if Agreed(s, step.cleanupOk) {
      VisibleAppend(history, pushes);
      assert Visible(pushes) == pushes;
    }
  }

  lemma ChildErrorKeeps(json: Json, limits: Limits, s: State, history: seq<Event>, output: seq<seq<Utf8.Byte>>,
                        errored: bool)
    requires ChildInvariant(json, limits, s, history, output, errored)
    ensures ChildInvariant(json, limits, Next(json, limits, s, ChildError), history + [ErrorEvent], output, true)
  {
    HasAppend(history, [ErrorEvent]);
    assert [ErrorEvent][0].Terminal();
    VisibleAppend(history, [ErrorEvent]);
  }

  lemma ChildStep(json: Json, limits: Limits, s: State, history: seq<Event>, output: seq<seq<Utf8.Byte>>, errored: bool,
                  step: Step)
    requires ChildInvariant(json, limits, s, history, output, errored)
    ensures ChildInvariant(json, limits, Next(json, limits, s, step), history + Pushes(json, limits, s, step),
                           output + if step.Data? && s.phase.Open? then [step.chunk] else [],
                           errored || step.ChildError?)
  {
    hide Feed, DataStep, LastLine, CompleteOutput, HasTerminal, NoResult, Visible, ResultOf, Items, Agreed;
    assert output + [] == output && history + [] == history;
    if step.Data? && s.phase.Open? {
      DataKeeps(json, limits, s, history, output, errored, step.chunk);
    } else if step.CloseBegins? && s.phase.Open? {
      CloseBeginsKeeps(json, limits, s, history, output, errored, step);
    } else if step.CloseEnds? && s.phase.Closing? {
      CloseEndsKeeps(json, limits, s, history, output, errored, step);
    } else if step.ChildError? {
      ChildErrorKeeps(json, limits, s, history, output, errored);
    } else {
      assert Pushes(json, limits, s, step) == [];
      assert Next(json, limits, s, step).reader == s.reader && Next(json, limits, s, step).phase == s.phase;
    }
  }

  lemma {:induction false} ChildHolds(json: Json, limits: Limits, steps: seq<Step>)
    ensures ChildInvariant(json, limits, After(json, limits, steps), History(json, limits, steps),
                           Output(json, limits, steps), ChildErrored(steps))
  {
    hide Next, Pushes, ChildInvariant;
    if steps != [] {
      var n := |steps| - 1;
      var before := steps[..n];
      ChildHolds(json, limits, before);
      ChildStep(json, limits, After(json, limits, before), History(json, limits, before),
                Output(json, limits, before), ChildErrored(before), steps[n]);
      assert steps == before + [steps[n]];
    } else {
      ChildBegins(json, limits);
    }
  }

  lemma ChildBegins(json: Json, limits: Limits)
    ensures ChildInvariant(json, limits, BEGIN, [], [], false)
  {
  }

  // ----- the invariant: consumer side -----

  function Events(queue: seq<Item>): seq<Event> {
    if queue == [] then []
    else if queue[0].Done? then Events(queue[1..])
    else [queue[0].event] + Events(queue[1..])
  }

  lemma {:induction false} EventsAppend(a: seq<Item>, b: seq<Item>)
    ensures Events(a + b) == Events(a) + Events(b)
  {
    if a == [] {
      assert a + b == b;
    } else {
      assert (a + b)[1..] == a[1..] + b;
      EventsAppend(a[1..], b);
    }
  }

  lemma {:induction false} EventsOfItems(events: seq<Event>)
    ensures Events(Items(events)) == events
  {
    if events != [] {
      EventsOfItems(events[1..]);
      assert Items(events)[1..] == Items(events[1..]);
    }
  }

  /** A terminal event stands in the queue, before any `Done`. */
  ghost predicate TerminalWaits(queue: seq<Item>) {
    exists i | 0 <= i < |queue| ::
      queue[i].Item? && queue[i].event.Terminal() && forall j | 0 <= j < i :: queue[j].Item?
  }

  ghost predicate ConsumerInvariant(s: State, history: seq<Event>) {
    if s.position.Finished? then
      !s.earlyClosed ==>
        || (HasTerminal(history) && s.yielded == Visible(history))
        || (s.aborted && |s.yielded| > 0 && s.yielded[|s.yielded| - 1] == ErrorEvent
            && !HasTerminal(s.yielded[..|s.yielded| - 1]))
    else
      && s.yielded + Events(s.queue) == history
      && !HasTerminal(s.yielded)
      && (s.phase.Closed? ==> TerminalWaits(s.queue))
      && (!s.phase.Closed? ==> Done !in s.queue)
  }

  lemma TerminalInQueue(queue: seq<Item>)
    requires Done !in queue && HasTerminal(Events(queue))
    ensures TerminalWaits(queue)
    decreases queue
  {
    var i :| 0 <= i < |Events(queue)| && Events(queue)[i].Terminal();
    assert queue[0] in queue;
    if !queue[0].event.Terminal() {
      assert Events(queue)[1..][i - 1].Terminal();
      assert Events(queue)[1..] == Events(queue[1..]);
      TerminalInQueue(queue[1..]);
      var k :| 0 <= k < |queue[1..]| && queue[1..][k].Item? && queue[1..][k].event.Terminal()
               && forall j | 0 <= j < k :: queue[1..][j].Item?;
      assert queue[k + 1].Item? && forall j | 0 <= j < k + 1 :: queue[j].Item? by {
        forall j | 0 <= j < k + 1 ensures queue[j].Item? {
          if j > 0 { assert queue[1..][j - 1].Item?; }
        }
      }
    }
  }

  lemma TerminalStillWaits(queue: seq<Item>, more: seq<Item>)
    requires TerminalWaits(queue)
    ensures TerminalWaits(queue + more)
  {
    var i :| 0 <= i < |queue| && queue[i].Item? && queue[i].event.Terminal() && forall j | 0 <= j < i :: queue[j].Item?;
    assert (queue + more)[i] == queue[i];
  }

  /** The consumer's own steps. */
  lemma ConsumeKeeps(s: State, history: seq<Event>)
    requires ConsumerInvariant(s, history)
    ensures ConsumerInvariant(ConsumeStep(s), history)
  {
    if s.position.Top? && !s.earlyClosed && s.aborted {
      assert (s.yielded + [ErrorEvent])[..|s.yielded|] == s.yielded;
    }
    if s.position.Draining? && s.queue != [] {
      if s.phase.Closed? {
        var i :| 0 <= i < |s.queue| && s.queue[i].Item? && s.queue[i].event.Terminal()
                 && forall j | 0 <= j < i :: s.queue[j].Item?;
        if i > 0 {
          assert s.queue[1..][i - 1] == s.queue[i];
          assert forall j | 0 <= j < i - 1 :: s.queue[1..][j] == s.queue[j + 1];
        }
      } else {
        assert s.queue[0] in s.queue;
        assert forall x | x in s.queue[1..] :: x in s.queue;
      }
      var event := s.queue[0].event;
      assert s.yielded + Events(s.queue) == (s.yielded + [event]) + Events(s.queue[1..]);
      HasAppend(s.yielded, [event]);
      if event.Terminal() {
        assert [event][0].Terminal();
        VisibleAppend(s.yielded, [event] + Events(s.queue[1..]));
        assert history == s.yielded + ([event] + Events(s.queue[1..]));
        HasAppend(s.yielded, [event] + Events(s.queue[1..]));
        HasAppend([event], Events(s.queue[1..]));
      }
    }
  }

  lemma PushAfterReturn(s: State, history: seq<Event>, pushes: seq<Event>)
    requires ConsumerInvariant(s, history) && s.position.Finished?
    ensures ConsumerInvariant(s.(queue := s.queue + Items(pushes)), history + pushes)
  {
    VisibleAppend(history, pushes);
    HasAppend(history, pushes);
  }

  lemma Regroup(a: seq<Event>, b: seq<Event>, c: seq<Event>)
    ensures a + (b + c) == (a + b) + c
  {
  }

  /** Pushes do not disturb the consumer. */
  lemma PushKeeps(s: State, history: seq<Event>, pushes: seq<Event>)
    requires ConsumerInvariant(s, history)
    ensures ConsumerInvariant(s.(queue := s.queue + Items(pushes)), history + pushes)
  {
    if s.position.Finished? {
      PushAfterReturn(s, history, pushes);
    } else {
      EventsAppend(s.queue, Items(pushes));
      EventsOfItems(pushes);
      Regroup(s.yielded, Events(s.queue), pushes);
      if s.phase.Closed? {
        TerminalStillWaits(s.queue, Items(pushes));
      }
    }
  }

  /** Closing leaves a terminal event waiting before `Done`. */
  lemma DoneKeeps(s: State, history: seq<Event>, phase: Phase)
    requires ConsumerInvariant(s, history) && !s.phase.Closed? && phase.Closed?
    requires HasTerminal(history)
    ensures ConsumerInvariant(s.(queue := s.queue + [Done], phase := phase), history)
  {
    if !s.position.Finished? {
      EventsAppend(s.queue, [Done]);
      assert Events([Done]) == Events([Done][1..]) == [];
      assert Events(s.queue) + [] == Events(s.queue);
      HasAppend(s.yielded, Events(s.queue));
      TerminalInQueue(s.queue);
      TerminalStillWaits(s.queue, [Done]);
    }
  }

  lemma ConsumerStep(json: Json, limits: Limits, s: State, history: seq<Event>, step: Step)
    requires ConsumerInvariant(s, history)
    requires s.phase.Closing? ==> s.reader.parser.failed == HasTerminal(history)
    ensures ConsumerInvariant(Next(json, limits, s, step), history + Pushes(json, limits, s, step))
  {
    hide DataStep, LastLine, Visible, Events, ConsumeStep;
    var pushes := Pushes(json, limits, s, step);
    assert history + [] == history;
    if step.Consume? {
      ConsumeKeeps(s, history);
    } else {
      PushKeeps(s, history, pushes);
      if step.CloseEnds? && s.phase.Closing? {
        HasAppend(history, pushes);
        if pushes != [] {
          assert pushes[0].Terminal();
        }
        DoneKeeps(s.(queue := s.queue + Items(pushes)), history + pushes, Next(json, limits, s, step).phase);
      } else {
        assert Items([]) == [] && s.queue + [] == s.queue;
      }
    }
  }

  lemma {:induction false} ConsumerHolds(json: Json, limits: Limits, steps: seq<Step>)
    ensures ConsumerInvariant(After(json, limits, steps), History(json, limits, steps))
  {
    if steps != [] {
      var before := steps[..|steps| - 1];
      ConsumerHolds(json, limits, before);
      ChildHolds(json, limits, before);
      ConsumerStep(json, limits, After(json, limits, before), History(json, limits, before), steps[|steps| - 1]);
    }
  }

  // ----- what holds of every run -----

  lemma {:induction false} VisibleEndsInTerminal(events: seq<Event>)
    requires HasTerminal(events)
    ensures var v := Visible(events);
            |v| > 0 && v[|v| - 1].Terminal() && !HasTerminal(v[..|v| - 1])
  {
    if !events[0].Terminal() {
      var i :| 0 <= i < |events| && events[i].Terminal();
      assert events[1..][i - 1].Terminal();
      VisibleEndsInTerminal(events[1..]);
      var v := Visible(events);
      var later := Visible(events[1..]);
      assert v[..|v| - 1] == [events[0]] + later[..|later| - 1];
      HasAppend([events[0]], later[..|later| - 1]);
    }
  }

  /** A consumer that was not closed early yields at most one terminal event, and
      only as its last; once it has returned it has yielded exactly one. */
  lemma ExactlyOneTerminal(json: Json, limits: Limits, steps: seq<Step>)
    requires !After(json, limits, steps).earlyClosed
    ensures var s := After(json, limits, steps);
            && (!s.position.Finished? ==> !HasTerminal(s.yielded))
            && (s.position.Finished? ==>
                  |s.yielded| > 0 && s.yielded[|s.yielded| - 1].Terminal()
                  && !HasTerminal(s.yielded[..|s.yielded| - 1]))
  {
    ConsumerHolds(json, limits, steps);
    if HasTerminal(History(json, limits, steps)) {
      VisibleEndsInTerminal(History(json, limits, steps));
    }
  }

  lemma {:induction false} VisibleHasNoNewResult(events: seq<Event>)
    ensures NoResult(events) ==> NoResult(Visible(events))
  {
    if events != [] {
      VisibleHasNoNewResult(events[1..]);
      assert NoResult(events) ==> NoResult(events[1..]);
    }
  }

  lemma OnlyTheLastIsTerminal(events: seq<Event>, i: nat)
    requires i < |events| && events[i].Terminal() && !HasTerminal(events[..|events| - 1])
    ensures i == |events| - 1
  {
    assert forall k | 0 <= k < |events| - 1 :: events[..|events| - 1][k] == events[k];
  }

  lemma ResultIsTerminal(events: seq<Event>, i: nat)
    requires i < |events| && events[i].Result?
    ensures HasTerminal(events)
  {
    assert events[i].Terminal();
  }

  lemma ResultFacts(json: Json, limits: Limits, s: State, history: seq<Event>, output: seq<seq<Utf8.Byte>>,
                    errored: bool)
    requires ConsumerInvariant(s, history) && ChildInvariant(json, limits, s, history, output, errored)
    requires !s.earlyClosed && !NoResult(s.yielded)
    ensures s.phase.Closed? && s.phase.agreed && s.yielded == Visible(history)
  {
    hide Feed, LastLine, CompleteOutput, ResultOf, OutputEvents, Visible, HasTerminal;
    var i: nat :| i < |s.yielded| && s.yielded[i].Result?;
    ResultIsTerminal(s.yielded, i);
    assert s.position.Finished?;
    if HasTerminal(history) && s.yielded == Visible(history) {
      VisibleHasNoNewResult(history);
    } else {
      OnlyTheLastIsTerminal(s.yielded, i);
    }
  }

  /** A yielded result is preceded by exactly the events that the frames of the whole
      output tell, in their order, its finish reason tells whether a tool use is
      among them, and it is yielded only after a clean exit, an intact credential, a
      clean sandbox and an output of accepted frames ended by one success result. */
  lemma ResultOnlyIfAgreed(json: Json, limits: Limits, steps: seq<Step>)
    requires !After(json, limits, steps).earlyClosed
    requires !NoResult(After(json, limits, steps).yielded)
    ensures var s := After(json, limits, steps);
            var text := Utf8.DecodePieces(Output(json, limits, steps));
            var events := OutputEvents(json, limits, Output(json, limits, steps));
            && s.phase == Closed(true, true, true, true)
            && CompleteOutput(json, limits, Output(json, limits, steps))
            && s.yielded == events + [Result(ResultOf(json, text, events))]
            && !HasTerminal(events)
            && ToldBeforeLast(json, TextFrames(json, text), events)
  {
    ConsumerHolds(json, limits, steps);
    ChildHolds(json, limits, steps);
    ResultFacts(json, limits, After(json, limits, steps), History(json, limits, steps), Output(json, limits, steps),
                ChildErrored(steps));
    PendingResultIff(json, limits, Output(json, limits, steps));
    CompleteFramesTell(json, TextFrames(json, Utf8.DecodePieces(Output(json, limits, steps))));
  }

  lemma OutcomeFacts(json: Json, limits: Limits, s: State, history: seq<Event>, output: seq<seq<Utf8.Byte>>)
    requires ConsumerInvariant(s, history) && ChildInvariant(json, limits, s, history, output, false)
    requires !s.aborted && !s.earlyClosed && s.position.Finished? && s.phase.Closed?
    ensures |s.yielded| > 0
    ensures s.yielded[|s.yielded| - 1].Result? <==>
              s.phase.exitZero && s.phase.credentialIntact && s.phase.cleanupOk
              && CompleteOutput(json, limits, output)
  {
    VisibleHasNoNewResult(history);
    VisibleEndsInTerminal(history);
  }

  /** In a run without abort, early close or child error, a consumer that has
      returned yielded a result if and only if the output was complete and the
      exit, the credential and the cleanup were in order. */
  lemma ResultIff(json: Json, limits: Limits, steps: seq<Step>)
    requires Abort !in steps && EarlyClose !in steps && !ChildErrored(steps)
    requires After(json, limits, steps).position.Finished? && After(json, limits, steps).phase.Closed?
    ensures var s := After(json, limits, steps);
            && |s.yielded| > 0
            && (s.yielded[|s.yielded| - 1].Result? <==>
                  s.phase.exitZero && s.phase.credentialIntact && s.phase.cleanupOk
                  && CompleteOutput(json, limits, Output(json, limits, steps)))
  {
    NeverAborted(json, limits, steps);
    ConsumerHolds(json, limits, steps);
    ChildHolds(json, limits, steps);
    OutcomeFacts(json, limits, After(json, limits, steps), History(json, limits, steps), Output(json, limits, steps));
  }

  // ----- errors of the child -----

  /** The stream has failed and has not been agreed upon. */
  predicate FailedForGood(s: State) {
    s.reader.parser.failed && (s.phase.Closed? ==> !s.phase.agreed)
  }

  lemma FailureStays(json: Json, limits: Limits, s: State, step: Step)
    requires FailedForGood(s)
    ensures FailedForGood(Next(json, limits, s, step))
  {
    hide DataStep, LineStep;
    match step
    case Data(chunk) => FailedStays(json, limits, s.reader, chunk);
    case CloseBegins(_, _) => LineKeepsFailed(json, s.reader.parser, s.reader.buffer);
    case _ =>
  }

  lemma {:induction false} FailedRunStaysFailed(json: Json, limits: Limits, steps: seq<Step>, k: nat)
    requires k < |steps| && steps[k] == ChildError && !After(json, limits, steps[..k]).phase.Closed?
    ensures FailedForGood(After(json, limits, steps))
  {
    hide Next, FailedForGood;
    var n := |steps| - 1;
    if k < n {
      assert steps[..n][..k] == steps[..k];
      FailedRunStaysFailed(json, limits, steps[..n], k);
      FailureStays(json, limits, After(json, limits, steps[..n]), steps[n]);
    } else {
      ErrorFails(json, limits, After(json, limits, steps[..n]));
    }
  }

  lemma ErrorFails(json: Json, limits: Limits, s: State)
    requires !s.phase.Closed?
    ensures FailedForGood(Next(json, limits, s, ChildError))
  {
  }

  /** Once the child has reported an error before its close is complete, no
      continuation yields a result, however well the run exits. */
  lemma ChildErrorPreventsResult(json: Json, limits: Limits, steps: seq<Step>, k: nat)
    requires k < |steps| && steps[k] == ChildError && !After(json, limits, steps[..k]).phase.Closed?
    requires !After(json, limits, steps).earlyClosed
    ensures NoResult(After(json, limits, steps).yielded)
  {
    hide Next, After;
    FailedRunStaysFailed(json, limits, steps, k);
    ConsumerHolds(json, limits, steps);
    ChildHolds(json, limits, steps);
    if !NoResult(After(json, limits, steps).yielded) {
      ResultFacts(json, limits, After(json, limits, steps), History(json, limits, steps), Output(json, limits, steps),
                  ChildErrored(steps));
    }
  }

  lemma OnlyCallersAbort(json: Json, limits: Limits, s: State, step: Step)
    requires !step.Abort? && !step.EarlyClose?
    ensures Next(json, limits, s, step).aborted == s.aborted
    ensures Next(json, limits, s, step).earlyClosed == s.earlyClosed
  {
  }

  lemma {:induction false} NeverAborted(json: Json, limits: Limits, steps: seq<Step>)
    requires Abort !in steps && EarlyClose !in steps
    ensures !After(json, limits, steps).aborted && !After(json, limits, steps).earlyClosed
  {
    if steps != [] {
      var n := |steps| - 1;
      assert steps[n] in steps;
      NeverAborted(json, limits, steps[..n]);
      OnlyCallersAbort(json, limits, After(json, limits, steps[..n]), steps[n]);
    }
  }

  // ----- the run ends -----

  /** The run `steps` followed by `n` turns of the consumer. */
  function WithTurns(steps: seq<Step>, n: nat): seq<Step>
    decreases n
  {
    if n == 0 then steps else WithTurns(steps + [Consume], n - 1)
  }

  lemma AfterOneMore(json: Json, limits: Limits, steps: seq<Step>)
    ensures After(json, limits, steps + [Consume]) == ConsumeStep(After(json, limits, steps))
  {
    assert (steps + [Consume])[..|steps|] == steps;
  }

  /** Turns after which the consumer has certainly returned, once the child closed. */
  function TurnsLeft(s: State): nat {
    match s.position
    case Finished => 0
    case Draining => |s.queue|
    case _ => |s.queue| + 1
  }

  lemma TurnCounts(s: State, history: seq<Event>)
    requires ConsumerInvariant(s, history) && s.phase.Closed?
    ensures ConsumeStep(s).phase == s.phase
    ensures TurnsLeft(ConsumeStep(s)) <= Max(0, TurnsLeft(s) - 1)
    ensures TurnsLeft(s) == 0 ==> s.position.Finished?
  {
  }

  lemma NextTurn(json: Json, limits: Limits, steps: seq<Step>)
    requires After(json, limits, steps).phase.Closed?
    ensures After(json, limits, steps + [Consume]).phase.Closed?
    ensures TurnsLeft(After(json, limits, steps)) == 0 ==> After(json, limits, steps).position.Finished?
    ensures TurnsLeft(After(json, limits, steps + [Consume])) <= Max(0, TurnsLeft(After(json, limits, steps)) - 1)
  {
    hide Next, ConsumeStep;
    ConsumerHolds(json, limits, steps);
    TurnCounts(After(json, limits, steps), History(json, limits, steps));
    AfterOneMore(json, limits, steps);
  }

  /** A run that reaches the child's close, and lets the consumer go on, ends. */
  lemma {:induction false} EveryClosedRunEnds(json: Json, limits: Limits, steps: seq<Step>, n: nat)
    requires After(json, limits, steps).phase.Closed?
    requires n >= TurnsLeft(After(json, limits, steps))
    ensures After(json, limits, WithTurns(steps, n)).position.Finished?
    decreases n
  {
    hide Next, TurnsLeft, After;
    NextTurn(json, limits, steps);
    if n > 0 {
      EveryClosedRunEnds(json, limits, steps + [Consume], n - 1);
    }
  }

  /** Turns after which the consumer of an aborted run has certainly returned. */
  function AbortTurnsLeft(s: State): nat {
    match s.position
    case Finished => 0
    case Top => 1
    case Draining => |s.queue| + 2
    case Waiting => |s.queue| + 3
  }

  lemma AbortTurnCounts(s: State)
    requires s.aborted
    ensures ConsumeStep(s).aborted
    ensures AbortTurnsLeft(ConsumeStep(s)) <= Max(0, AbortTurnsLeft(s) - 1)
  {
  }

  /** An aborted run ends even if the child never closes: what is queued is drained and
      the consumer returns within a bounded number of turns. */
  lemma {:induction false} EveryAbortedRunEnds(json: Json, limits: Limits, steps: seq<Step>, n: nat)
    requires After(json, limits, steps).aborted
    requires n >= AbortTurnsLeft(After(json, limits, steps))
    ensures After(json, limits, WithTurns(steps, n)).position.Finished?
    decreases n
  {
    hide After, ConsumeStep;
    AfterOneMore(json, limits, steps);
    AbortTurnCounts(After(json, limits, steps));
    if n > 0 {
      EveryAbortedRunEnds(json, limits, steps + [Consume], n - 1);
    }
  }
}
