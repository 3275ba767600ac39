/**
 Which events accepted frames push (packages/h2a-runtime/src/claude-code-cli-runner.ts),
 told from the frames and their positions alone: what each block and part says,
 and which start and which parts a finished tool input consists of.
 */
module RunnerEvents {
  import opened Common
  import opened RunnerReader

  // ----- the parts of a streamed tool input -----

  predicate StartsAt(frames: seq<Frame>, i: nat, index: int) {
    && i < |frames| && index >= 0 && frames[i].StreamEvent? && frames[i].event.Some?
    && frames[i].event.value.ToolStart? && frames[i].event.value.index == index
  }

  predicate StopsAt(frames: seq<Frame>, i: nat, index: int) {
    i < |frames| && index >= 0 && frames[i] == StreamEvent(Some(BlockStop(index)))
  }

  /** Before frame `k`, frame `s` was the last to start the block, and no frame has stopped it since. */
  ghost predicate OpenSince(frames: seq<Frame>, k: nat, index: int, s: nat) {
    && s < k <= |frames| && StartsAt(frames, s, index)
    && forall i | s < i < k :: !StartsAt(frames, i, index) && !StopsAt(frames, i, index)
  }

  /** What one frame adds to the input of the block. */
  function PartOf(frame: Frame, index: int): string {
    if frame.StreamEvent? && frame.event.Some? && frame.event.value.JsonPart? && frame.event.value.index == index
    then frame.event.value.json
    else ""
  }

  /** The parts of the block's input in the frames from `s` up to `k`, one after another. */
  function PartsBetween(frames: seq<Frame>, s: nat, k: nat, index: int): string
    requires s <= k <= |frames|
  {
    if s == k then "" else PartsBetween(frames, s, k - 1, index) + PartOf(frames[k - 1], index)
  }

  // ----- what a frame tells -----

  function Join(told: seq<seq<Event>>): seq<Event> {
    if told == [] then [] else Join(told[..|told| - 1]) + told[|told| - 1]
  }

  /** Text is passed on unless it is empty, a tool use with its own id, name and
      input, reasoning not at all. */
  ghost predicate BlockTells(block: Block, events: seq<Event>) {
    && !block.BadBlock?
    && (block.TextBlock? ==> events == if block.text == "" then [] else [TextDelta(block.text)])
    && (block.ToolBlock? ==> events == [ToolUse(block.id, block.name, block.input)])
    && (block.Thinking? ==> events == [])
  }

  /** A message tells what its blocks tell, in their order. */
  ghost predicate MessageTells(content: seq<Block>, events: seq<Event>) {
    exists told: seq<seq<Event>> ::
      |told| == |content| && (forall i | 0 <= i < |told| :: BlockTells(content[i], told[i])) && events == Join(told)
  }

  /** The stop of a block that has had parts tells one tool use: the id and name of
      the start that opened it and the parsed text of the parts since. */
  ghost predicate StopTells(json: Json, frames: seq<Frame>, k: nat, index: int, events: seq<Event>)
    requires k < |frames|
  {
    && ((forall s: nat :: !OpenSince(frames, k, index, s)) ==> events == [])
    && forall s: nat | OpenSince(frames, k, index, s) ::
         var text, start := PartsBetween(frames, s, k, index), frames[s].event.value;
         if text == "" then events == []
         else json.input(text).Some? && events == [ToolUse(start.id, start.name, json.input(text).value)]
  }

  ghost predicate FrameTells(json: Json, frames: seq<Frame>, k: nat, events: seq<Event>)
    requires k < |frames|
  {
    match frames[k]
    case Ignored => events == []
    case Assistant(content) => content.Some? && MessageTells(content.value, events)
    case StreamEvent(event) =>
      event.Some? &&
      (match event.value
       case TextPart(text) => events == if text == "" then [] else [TextDelta(text)]
       case BlockStop(index) => StopTells(json, frames, k, index, events)
       case _ => events == [])
    case _ => false
  }

  /** Every frame, in its place, is one that tells something or nothing. */
  ghost predicate Tells(json: Json, frames: seq<Frame>, told: seq<seq<Event>>) {
    |told| == |frames| && forall k | 0 <= k < |frames| :: FrameTells(json, frames, k, told[k])
  }

  // ----- blocks -----

  lemma JoinSnoc(told: seq<seq<Event>>, x: seq<Event>)
    ensures Join(told + [x]) == Join(told) + x
  {
    assert (told + [x])[..|told|] == told;
  }

  lemma JoinOne(x: seq<Event>)
    ensures Join([x]) == x
  {
    JoinSnoc([], x);
    assert [] + [x] == [x] && Join([]) + x == x;
  }

  lemma {:induction false} JoinCons(x: seq<Event>, told: seq<seq<Event>>)
    ensures Join([x] + told) == x + Join(told)
  {
    if told == [] {
      JoinOne(x);
      assert [x] + told == [x] && x + [] == x;
    } else {
      var n := |told| - 1;
      JoinCons(x, told[..n]);
      JoinSnoc([x] + told[..n], told[n]);
      assert [x] + told == ([x] + told[..n]) + [told[n]];
      assert x + (Join(told[..n]) + told[n]) == (x + Join(told[..n])) + told[n];
    }
  }

  lemma {:induction false} BlocksTell(p: Parser, content: seq<Block>) returns (told: seq<seq<Event>>)
    requires NoBadBlock(content)
    ensures |told| == |content| && forall i | 0 <= i < |told| :: BlockTells(content[i], told[i])
    ensures Blocks(p, content).events == Join(told)
    decreases content
  {
    told := [];
    if content != [] {
      var first := BlockStep(p, content[0]);
      var later := BlocksTell(first.parser, content[1..]);
      JoinCons(first.events, later);
      told := [first.events] + later;
    }
  }

  lemma {:induction false} OneTellingOfBlocks(content: seq<Block>, a: seq<seq<Event>>, b: seq<seq<Event>>)
    requires |a| == |content| == |b|
    requires forall i | 0 <= i < |content| :: BlockTells(content[i], a[i]) && BlockTells(content[i], b[i])
    ensures a == b
  {
  }

  /** A message is told exactly if it has no bad block, and then what is told is what is pushed. */
  lemma MessageTold(p: Parser, content: seq<Block>, events: seq<Event>)
    ensures MessageTells(content, events) <==> NoBadBlock(content) && Blocks(p, content).events == events
  {
    if NoBadBlock(content) {
      var told := BlocksTell(p, content);
      if MessageTells(content, events) {
        var other: seq<seq<Event>> :|
          |other| == |content| && (forall i | 0 <= i < |other| :: BlockTells(content[i], other[i]))
          && events == Join(other);
        OneTellingOfBlocks(content, told, other);
      }
    }
  }

  // ----- streamed tool inputs -----

  /** What is under construction for the block before frame `k`: something exactly if the
      block is open, and then the id and name of the start and the parts since. */
  ghost predicate UnderConstruction(open: map<int, Slot>, frames: seq<Frame>, k: nat, index: int)
    requires k <= |frames|
  {
    && (index in open <==> exists s: nat :: OpenSince(frames, k, index, s))
    && forall s: nat | OpenSince(frames, k, index, s) ::
         var start := frames[s].event.value;
         open[index] == Slot(start.id, start.name, PartsBetween(frames, s, k, index))
  }

  lemma StartOpens(open: map<int, Slot>, frames: seq<Frame>, k: nat, next: nat, index: int)
    requires k < |frames| && next == k + 1 && StartsAt(frames, k, index)
    ensures UnderConstruction(NextInputs(open, frames[k]), frames, next, index)
  {
    assert OpenSince(frames, next, index, k);
    SinceIsUnique(frames, next, index, k);
    assert PartsBetween(frames, k, next, index) == "";
  }

  lemma StopCloses(open: map<int, Slot>, frames: seq<Frame>, k: nat, next: nat, index: int)
    requires k < |frames| && next == k + 1 && StopsAt(frames, k, index)
    ensures UnderConstruction(NextInputs(open, frames[k]), frames, next, index)
  {
    forall s: nat
      ensures !OpenSince(frames, next, index, s)
    {
      assert s < k ==> StopsAt(frames, k, index);
    }
  }

  lemma SinceIsUnique(frames: seq<Frame>, k: nat, index: int, s: nat)
    requires OpenSince(frames, k, index, s)
    ensures index >= 0
    ensures forall other: nat | OpenSince(frames, k, index, other) :: other == s
  {
  }

  lemma ConstructionGoesOn(open: map<int, Slot>, frames: seq<Frame>, k: nat, next: nat, index: int)
    requires k < |frames| && next == k + 1 && !StartsAt(frames, k, index) && !StopsAt(frames, k, index)
    requires UnderConstruction(open, frames, k, index)
    ensures UnderConstruction(NextInputs(open, frames[k]), frames, next, index)
  {
    forall s: nat
      ensures OpenSince(frames, next, index, s) <==> OpenSince(frames, k, index, s)
    {
      SinceGoesOn(frames, k, index, s);
    }
    if s: nat :| OpenSince(frames, k, index, s) {
      SinceIsUnique(frames, k, index, s);
      assert PartsBetween(frames, s, next, index) == PartsBetween(frames, s, k, index) + PartOf(frames[k], index);
    }
  }

  lemma SinceGoesOn(frames: seq<Frame>, k: nat, index: int, s: nat)
    requires k < |frames| && !StartsAt(frames, k, index) && !StopsAt(frames, k, index)
    ensures OpenSince(frames, k + 1, index, s) <==> OpenSince(frames, k, index, s)
  {
  }

  lemma {:induction false} OpenByPosition(json: Json, frames: seq<Frame>, k: nat, index: int)
    requires k <= |frames|
    ensures UnderConstruction(OpenInputs(json, frames[..k]), frames, k, index)
  {
    if k > 0 {
      OpenByPosition(json, frames, k - 1, index);
      assert frames[..k][..k - 1] == frames[..k - 1];
      var before := OpenInputs(json, frames[..k - 1]);
      if StartsAt(frames, k - 1, index) {
        StartOpens(before, frames, k - 1, k, index);
      } else if StopsAt(frames, k - 1, index) {
        StopCloses(before, frames, k - 1, k, index);
      } else {
        ConstructionGoesOn(before, frames, k - 1, k, index);
      }
    } else {
      assert forall s: nat :: !OpenSince(frames, 0, index, s);
    }
  }

  // ----- frames -----

  /** Events told of a frame that fits in: exactly those it pushes. */
  lemma FrameTold(json: Json, frames: seq<Frame>, k: nat, p: Parser, events: seq<Event>)
    requires k < |frames| && !p.terminalSeen && p.slots == OpenInputs(json, frames[..k])
    ensures FrameTells(json, frames, k, events) <==>
              Accepted(json, p.slots, frames[k]) && FrameStep(json, p, frames[k]).events == events
  {
    hide OpenSince, NextInputs;
    match frames[k]
    case Assistant(content) =>
      if content.Some? {
        MessageTold(p, content.value, events);
      }
    case StreamEvent(event) =>
      if event.Some? && event.value.BlockStop? {
        StopTold(json, frames, k, event.value.index, p, events);
      }
    case _ =>
  }

  lemma StopTold(json: Json, frames: seq<Frame>, k: nat, index: int, p: Parser, events: seq<Event>)
    requires k < |frames| && p.slots == OpenInputs(json, frames[..k])
    ensures StopTells(json, frames, k, index, events) <==>
              Accepted(json, p.slots, StreamEvent(Some(BlockStop(index))))
              && InnerStep(json, p, BlockStop(index)).events == events
  {
    OpenByPosition(json, frames, k, index);
    if index in p.slots {
      var s: nat :| OpenSince(frames, k, index, s);
      SinceIsUnique(frames, k, index, s);
    }
  }

  lemma {:induction false} ToldIsPushed(json: Json, frames: seq<Frame>, told: seq<seq<Event>>, k: nat)
    requires k <= |frames| && Tells(json, frames, told)
    ensures AllAccepted(json, frames[..k]) && FramesStep(json, frames[..k]).events == Join(told[..k])
  {
    hide FrameTells, Accepted, FrameStep;
    if k > 0 {
      ToldIsPushed(json, frames, told, k - 1);
      var before, upTo := frames[..k - 1], frames[..k];
      assert upTo[..k - 1] == before && told[..k][..k - 1] == told[..k - 1];
      SlotsAreOpenInputs(json, before);
      FrameTold(json, frames, k - 1, FramesStep(json, before).parser, told[k - 1]);
      AllAcceptedSplit(json, upTo);
    }
  }

  lemma {:induction false} PushedIsTold(json: Json, frames: seq<Frame>, k: nat) returns (told: seq<seq<Event>>)
    requires k <= |frames| && AllAccepted(json, frames)
    ensures |told| == k && forall i | 0 <= i < k :: FrameTells(json, frames, i, told[i])
  {
    hide FrameTells, Accepted, FrameStep;
    told := [];
    if k > 0 {
      var before := PushedIsTold(json, frames, k - 1);
      AcceptedTake(json, frames, k - 1);
      SlotsAreOpenInputs(json, frames[..k - 1]);
      var p := FramesStep(json, frames[..k - 1]).parser;
      var events := FrameStep(json, p, frames[k - 1]).events;
      FrameTold(json, frames, k - 1, p, events);
      told := before + [events];
    }
  }

  lemma AcceptedTake(json: Json, frames: seq<Frame>, k: nat)
    requires k < |frames| && AllAccepted(json, frames)
    ensures AllAccepted(json, frames[..k]) && Accepted(json, OpenInputs(json, frames[..k]), frames[k])
  {
    hide Accepted;
    forall i | 0 <= i < k
      ensures Accepted(json, OpenInputs(json, frames[..k][..i]), frames[..k][i])
    {
      assert frames[..k][..i] == frames[..i];
    }
  }

  /** Frames are accepted if and only if each of them, in its place, tells something or
      nothing; and then what has been pushed is what they tell, in their order. */
  lemma AcceptedFramesTell(json: Json, frames: seq<Frame>)
    ensures AllAccepted(json, frames) <==> exists told :: Tells(json, frames, told)
    ensures forall told | Tells(json, frames, told) :: FramesStep(json, frames).events == Join(told)
  {
    assert frames[..|frames|] == frames;
    forall told | Tells(json, frames, told)
      ensures AllAccepted(json, frames) && FramesStep(json, frames).events == Join(told)
    {
      ToldIsPushed(json, frames, told, |frames|);
      assert told[..|frames|] == told;
    }
    if AllAccepted(json, frames) {
      var told := PushedIsTold(json, frames, |frames|);
      assert Tells(json, frames, told);
    }
  }

  /** The events are what the frames before the last one tell. */
  ghost predicate ToldBeforeLast(json: Json, frames: seq<Frame>, events: seq<Event>) {
    frames != [] && exists told :: Tells(json, frames[..|frames| - 1], told) && events == Join(told)
  }

  lemma CompleteFramesTell(json: Json, frames: seq<Frame>)
    requires Complete(json, frames)
    ensures ToldBeforeLast(json, frames, FramesStep(json, frames).events)
  {
    hide Tells, AllAccepted;
    var n := |frames| - 1;
    AcceptedFramesTell(json, frames[..n]);
    SlotsAreOpenInputs(json, frames[..n]);
    FrameStepFacts(json, FramesStep(json, frames[..n]).parser, frames[n]);
    assert FramesStep(json, frames).events == FramesStep(json, frames[..n]).events + [];
  }
}
