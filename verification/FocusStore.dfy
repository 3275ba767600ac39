/**
 The store behind the focus deck (packages/focus-interactive/src/store.ts and
 swipe.ts): one lane per project with a selection index, an active project and the
 captured intents.  Listeners are not modelled.
 */
module FocusStore {
  import opened Common
  import opened Sorting
  import opened FocusDeck
  import DecisionKeys

  // ----- selection -----

  datatype Direction = Next | Prev
  datatype Swipe = Swipe(index: int, length: nat)

  function ClampIndex(index: int, length: int): int {
    if length <= 0 then 0 else Max(0, Min(index, length - 1))
  }

  function CreateSwipe(length: nat, index: int): Swipe {
    Swipe(ClampIndex(index, length), length)
  }

  function MoveSwipe(s: Swipe, d: Direction): Swipe {
    s.(index := ClampIndex(s.index + if d == Next then 1 else -1, s.length))
  }

  function SelectIndex(s: Swipe, index: int): Swipe {
    s.(index := ClampIndex(index, s.length))
  }

  function ResizeSwipe(s: Swipe, length: nat): Swipe {
    CreateSwipe(length, s.index)
  }

  /** The index points at a card, or is zero when there is none. */
  ghost predicate InRange(s: Swipe) {
    if s.length == 0 then s.index == 0 else 0 <= s.index < s.length
  }

  // ----- the store's data -----

  datatype Lane = Lane(hash: string, root: Option<string>, decisions: seq<Decision>, swipe: Swipe, readAt: string)
  datatype Sync = Sync(hash: string, root: Option<string>, decisions: seq<Decision>, readAt: string)
  datatype Intent = Intent(key: string, body: string)

  /** `order` is the insertion order of the project map. */
  datatype State = State(order: seq<string>, lanes: map<string, Lane>, active: Option<string>, intents: seq<Intent>)

  datatype Deck = Deck(lane: Lane, selected: Option<Decision>)
  datatype Snapshot = Snapshot(
    projects: seq<Deck>, allDecisions: seq<Decision>, activeHash: Option<string>, active: Option<Deck>,
    intents: seq<Intent>)

  datatype StoreError = UnknownProject | BadKey(error: DecisionKeys.KeyError)

  ghost predicate LaneOk(hash: string, l: Lane) {
    && l.hash == hash && InRange(l.swipe) && l.swipe.length == |l.decisions|
    && Aggregate(l.decisions) == l.decisions
  }

  /** Every index is in range for its lane, and a project is active iff there is one. */
  ghost predicate StateOk(s: State) {
    && NoDuplicates(s.order)
    && (forall h :: h in s.order <==> h in s.lanes)
    && (forall h | h in s.lanes :: LaneOk(h, s.lanes[h]))
    && (s.active.Some? <==> s.order != [])
    && (s.active.Some? ==> s.active.value in s.lanes)
  }

  // ----- commands as functions -----

  function NewLane(was: map<string, Lane>, sync: Sync): Lane {
    var decisions := Aggregate(sync.decisions);
    var swipe := if sync.hash in was then was[sync.hash].swipe else CreateSwipe(|decisions|, 0);
    Lane(sync.hash, sync.root, decisions, ResizeSwipe(swipe, |decisions|), sync.readAt)
  }

  /** A later snapshot of the same project replaces the earlier one in its place. */
  function Replaced(was: map<string, Lane>, syncs: seq<Sync>): (seq<string>, map<string, Lane>) {
    if syncs == [] then ([], map[])
    else
      var (order, lanes) := Replaced(was, syncs[..|syncs| - 1]);
      var sync := syncs[|syncs| - 1];
      (if sync.hash in lanes then order else order + [sync.hash], lanes[sync.hash := NewLane(was, sync)])
  }

  function Activated(active: Option<string>, order: seq<string>, lanes: map<string, Lane>): Option<string> {
    if active.Some? && active.value in lanes then active else if order == [] then None else Some(order[0])
  }

  function ReplaceProjects(s: State, syncs: seq<Sync>): State {
    var (order, lanes) := Replaced(s.lanes, syncs);
    State(order, lanes, Activated(s.active, order, lanes), s.intents)
  }

  function WithSwipe(s: State, swipe: Swipe -> Swipe): State {
    if s.active.None? || s.active.value !in s.lanes then s
    else
      var l := s.lanes[s.active.value];
      s.(lanes := s.lanes[s.active.value := l.(swipe := swipe(l.swipe))])
  }

  /** Why an intent is refused, if it is. */
  function IntentError(s: State, intent: Intent): Option<StoreError> {
    match DecisionKeys.ParseDecisionKey(intent.key)
    case Err(e) => Some(BadKey(e))
    case Ok(parts) => if parts.projectHash in s.lanes then None else Some(UnknownProject)
  }

  function DeckOf(l: Lane): Deck {
    Deck(l, if 0 <= l.swipe.index < |l.decisions| then Some(l.decisions[l.swipe.index]) else None)
  }

  function Decks(s: State, order: seq<string>): seq<Deck> {
    if order == [] then []
    else
      var h := order[|order| - 1];
      Decks(s, order[..|order| - 1]) + if h in s.lanes then [DeckOf(s.lanes[h])] else []
  }

  function LaneDecisions(s: State, order: seq<string>): seq<Decision> {
    if order == [] then []
    else
      var h := order[|order| - 1];
      LaneDecisions(s, order[..|order| - 1]) + if h in s.lanes then s.lanes[h].decisions else []
  }

  function SnapshotOf(s: State): Snapshot {
    Snapshot(Decks(s, s.order), Aggregate(LaneDecisions(s, s.order)), s.active,
             if s.active.Some? && s.active.value in s.lanes then Some(DeckOf(s.lanes[s.active.value])) else None,
             s.intents)
  }

  // ----- the invariant -----

  lemma {:induction false} ReplacedOk(was: map<string, Lane>, syncs: seq<Sync>)
    requires forall h | h in was :: LaneOk(h, was[h])
    ensures var (order, lanes) := Replaced(was, syncs);
            && NoDuplicates(order)
            && (forall h :: h in order <==> h in lanes)
            && (forall h | h in lanes :: LaneOk(h, lanes[h]))
  {
    hide Aggregate, InRange;
    if syncs != [] {
      var n := |syncs| - 1;
      ReplacedOk(was, syncs[..n]);
      NewLaneOk(was, syncs[n]);
    }
  }

  lemma NewLaneOk(was: map<string, Lane>, sync: Sync)
    requires forall h | h in was :: LaneOk(h, was[h])
    ensures LaneOk(sync.hash, NewLane(was, sync))
  {
    hide Aggregate;
    AggregateIdempotent(sync.decisions);
    assert sync.hash in was ==> LaneOk(sync.hash, was[sync.hash]);
  }

  lemma ReplaceKeeps(s: State, syncs: seq<Sync>)
    requires StateOk(s)
    ensures StateOk(ReplaceProjects(s, syncs))
  {
    hide LaneOk, Replaced;
    ReplacedOk(s.lanes, syncs);
  }

  lemma WithSwipeKeeps(s: State, swipe: Swipe -> Swipe)
    requires StateOk(s) && forall w | InRange(w) :: InRange(swipe(w)) && swipe(w).length == w.length
    ensures StateOk(WithSwipe(s, swipe))
  {
    hide Aggregate, InRange;
    if s.active.Some? {
      assert LaneOk(s.active.value, s.lanes[s.active.value]);
    }
  }

  lemma MoveKeeps(s: State, d: Direction)
    requires StateOk(s)
    ensures StateOk(WithSwipe(s, w => MoveSwipe(w, d)))
  {
    hide StateOk, WithSwipe;
    WithSwipeKeeps(s, w => MoveSwipe(w, d));
  }

  lemma SelectKeeps(s: State, index: int)
    requires StateOk(s)
    ensures StateOk(WithSwipe(s, w => SelectIndex(w, index)))
  {
    hide StateOk, WithSwipe;
    WithSwipeKeeps(s, w => SelectIndex(w, index));
  }

  // ----- what a snapshot shows -----

  lemma {:induction false} LaneDecisionsOf(s: State, order: seq<string>, lanes: seq<seq<Decision>>)
    requires |order| == |lanes| && forall i | 0 <= i < |order| :: order[i] in s.lanes
    requires forall i | 0 <= i < |order| :: s.lanes[order[i]].decisions == Aggregate(lanes[i])
    ensures LaneDecisions(s, order) == Concat(EachAggregated(lanes))
  {
    hide Aggregate;
    if order != [] {
      var n := |order| - 1;
      LaneDecisionsOf(s, order[..n], lanes[..n]);
      EachAggregatedLength(lanes[..n]);
      assert EachAggregated(lanes)[..n] == EachAggregated(lanes[..n]);
    }
  }

  function RawLanes(syncs: seq<Sync>): seq<seq<Decision>> {
    if syncs == [] then [] else RawLanes(syncs[..|syncs| - 1]) + [syncs[|syncs| - 1].decisions]
  }

  ghost predicate Listed(syncs: seq<Sync>, hash: string) {
    exists i | 0 <= i < |syncs| :: syncs[i].hash == hash
  }

  lemma ListedStep(syncs: seq<Sync>, hash: string)
    requires syncs != []
    ensures Listed(syncs, hash) <==> Listed(syncs[..|syncs| - 1], hash) || syncs[|syncs| - 1].hash == hash
  {
    forall i | 0 <= i < |syncs| - 1
      ensures syncs[..|syncs| - 1][i] == syncs[i]
    {
    }
  }

  lemma {:induction false} ReplacedDistinct(was: map<string, Lane>, syncs: seq<Sync>)
    requires forall i, j | 0 <= i < j < |syncs| :: syncs[i].hash != syncs[j].hash
    ensures var (order, lanes) := Replaced(was, syncs);
            && |order| == |syncs| == |RawLanes(syncs)|
            && (forall h :: h in lanes <==> Listed(syncs, h))
            && forall i | 0 <= i < |syncs| ::
                 && order[i] == syncs[i].hash && order[i] in lanes && lanes[order[i]] == NewLane(was, syncs[i])
                 && RawLanes(syncs)[i] == syncs[i].decisions
  {
    hide NewLane, Listed;
    if syncs != [] {
      var n := |syncs| - 1;
      ReplacedDistinct(was, syncs[..n]);
      forall i | 0 <= i < n
        ensures syncs[..n][i] == syncs[i]
      {
      }
      forall h
        ensures Listed(syncs, h) <==> Listed(syncs[..n], h) || syncs[n].hash == h
      {
        ListedStep(syncs, h);
      }
      NotListed(syncs);
    } else {
      NothingListed();
    }
  }

  lemma NothingListed()
    ensures forall h :: !Listed([], h)
  {
  }

  lemma NotListed(syncs: seq<Sync>)
    requires syncs != [] && forall i, j | 0 <= i < j < |syncs| :: syncs[i].hash != syncs[j].hash
    ensures !Listed(syncs[..|syncs| - 1], syncs[|syncs| - 1].hash)
  {
  }

  /** After a refresh with one snapshot per project, the combined deck is the
      aggregation of all raw decisions, as if there were no lanes. */
  lemma CombinedDeckIsRawAggregate(s: State, syncs: seq<Sync>)
    requires forall i, j | 0 <= i < j < |syncs| :: syncs[i].hash != syncs[j].hash
    ensures SnapshotOf(ReplaceProjects(s, syncs)).allDecisions == Aggregate(Concat(RawLanes(syncs)))
  {
    hide Aggregate, Concat, EachAggregated, Replaced, RawLanes;
    ReplacedDistinct(s.lanes, syncs);
    var t := ReplaceProjects(s, syncs);
    forall i | 0 <= i < |t.order|
      ensures t.order[i] in t.lanes && t.lanes[t.order[i]].decisions == Aggregate(RawLanes(syncs)[i])
    {
      assert t.lanes[t.order[i]] == NewLane(s.lanes, syncs[i]);
    }
    LaneDecisionsOf(t, t.order, RawLanes(syncs));
    LanesCompose(RawLanes(syncs));
  }

  /** The active deck always has a selected card, unless the lane is empty. */
  lemma ActiveSelection(s: State)
    requires StateOk(s)
    ensures SnapshotOf(s).active.Some? <==> s.order != []
    ensures SnapshotOf(s).active.Some? ==>
              (SnapshotOf(s).active.value.selected.Some? <==> SnapshotOf(s).active.value.lane.decisions != [])
  {
    hide Aggregate;
    if s.active.Some? {
      assert LaneOk(s.active.value, s.lanes[s.active.value]);
    }
  }

  /** A snapshot shows every lane in its order with the card at its index, and the active one. */
  lemma SnapshotShows(s: State, i: nat)
    requires StateOk(s) && i < |s.order|
    ensures var shown, lane := SnapshotOf(s), s.lanes[s.order[i]];
            && |shown.projects| == |s.order| && shown.projects[i].lane == lane
            && (lane.decisions == [] <==> shown.projects[i].selected.None?)
            && (lane.decisions != [] ==> 0 <= lane.swipe.index < |lane.decisions|
                                         && shown.projects[i].selected == Some(lane.decisions[lane.swipe.index]))
            && (s.active == Some(s.order[i]) ==> shown.active == Some(shown.projects[i]))
            && shown.activeHash == s.active && shown.intents == s.intents
  {
    hide Aggregate, LaneDecisions;
    assert LaneOk(s.order[i], s.lanes[s.order[i]]);
    DecksAt(s, s.order);
  }

  lemma {:induction false} DecksAt(s: State, order: seq<string>)
    requires forall h | h in order :: h in s.lanes
    ensures |Decks(s, order)| == |order|
    ensures forall i | 0 <= i < |order| :: Decks(s, order)[i] == DeckOf(s.lanes[order[i]])
  {
    hide DeckOf;
    if order != [] {
      DecksAt(s, order[..|order| - 1]);
    }
  }

  // ----- runs of commands -----

  datatype Command =
    | Refresh(syncs: seq<Sync>)
    | Activate(hash: string)
    | Go(direction: Direction)
    | Pick(index: int)
    | Capture(intent: Intent)
    | Clear

  function Obey(s: State, c: Command): State {
    match c
    case Refresh(syncs) => ReplaceProjects(s, syncs)
    case Activate(hash) => if hash in s.lanes then s.(active := Some(hash)) else s
    case Go(d) => WithSwipe(s, w => MoveSwipe(w, d))
    case Pick(index) => WithSwipe(s, w => SelectIndex(w, index))
    case Capture(intent) => if IntentError(s, intent).None? then s.(intents := s.intents + [intent]) else s
    case Clear => s.(intents := [])
  }

  const EMPTY := State([], map[], None, [])

  function Run(commands: seq<Command>): State {
    if commands == [] then EMPTY else Obey(Run(commands[..|commands| - 1]), commands[|commands| - 1])
  }

  lemma ObeyKeeps(s: State, c: Command)
    requires StateOk(s)
    ensures StateOk(Obey(s, c))
  {
    hide LaneOk, WithSwipe, ReplaceProjects;
    match c
    case Refresh(syncs) => ReplaceKeeps(s, syncs);
    case Go(d) => MoveKeeps(s, d);
    case Pick(index) => SelectKeeps(s, index);
    case _ =>
  }

  /** After any sequence of commands every index is in range for its lane's deduplicated
      deck, a project is active if and only if there is one, and the active deck shows a
      card if and only if it has any. */
  lemma {:induction false} RunsStayConsistent(commands: seq<Command>)
    ensures var s := Run(commands);
            && StateOk(s)
            && (SnapshotOf(s).active.Some? <==> s.order != [])
            && (SnapshotOf(s).active.Some? ==>
                  (SnapshotOf(s).active.value.selected.Some? <==> SnapshotOf(s).active.value.lane.decisions != []))
  {
    hide Obey, StateOk, SnapshotOf;
    if commands != [] {
      RunsStayConsistent(commands[..|commands| - 1]);
      ObeyKeeps(Run(commands[..|commands| - 1]), commands[|commands| - 1]);
    } else {
      EmptyIsOk();
    }
    ActiveSelection(Run(commands));
  }

  lemma EmptyIsOk()
    ensures StateOk(EMPTY)
  {
  }

  /** The selection of a lane. */
  function IndexAt(s: State, hash: string): int
    requires hash in s.lanes
  {
    s.lanes[hash].swipe.index
  }

  function Moved(s: State, d: Direction, n: nat): State {
    if n == 0 then s else Obey(Moved(s, d, n - 1), Go(d))
  }

  /** `t` is `s` but for the selection of the active lane, which is `index`. */
  ghost predicate OnlySelects(s: State, t: State, index: int) {
    && s.active.Some? && s.active.value in s.lanes
    && var l := s.lanes[s.active.value];
       t == s.(lanes := s.lanes[s.active.value := l.(swipe := l.swipe.(index := index))])
  }

  /** How far `n` moves lead from `at` when the last card is `last`. */
  function Reached(d: Direction, at: int, last: int, n: nat): int {
    if d == Next then Min(at + n, last) else Max(at - n, 0)
  }

  lemma GoSelects(s: State, t: State, d: Direction, index: int)
    requires OnlySelects(s, t, index) && s.lanes[s.active.value].swipe.length == |s.lanes[s.active.value].decisions|
    ensures OnlySelects(s, Obey(t, Go(d)), MoveSwipe(s.lanes[s.active.value].swipe.(index := index), d).index)
  {
    hide ClampIndex;
    var l := s.lanes[s.active.value];
    var m := t.lanes[s.active.value];
    assert m == l.(swipe := l.swipe.(index := index));
    assert Obey(t, Go(d)).lanes == t.lanes[s.active.value := m.(swipe := MoveSwipe(m.swipe, d))];
  }

  /** `n` moves take the active lane `n` cards on, or to its end; nothing else changes. */
  lemma {:induction false} MovesReach(s: State, d: Direction, n: nat)
    requires StateOk(s) && s.active.Some?
    ensures var last := Max(0, |s.lanes[s.active.value].decisions| - 1);
            OnlySelects(s, Moved(s, d, n), Reached(d, IndexAt(s, s.active.value), last, n))
  {
    hide Aggregate, OnlySelects, Obey;
    var l := s.lanes[s.active.value];
    assert LaneOk(s.active.value, l);
    var last := Max(0, |l.decisions| - 1);
    if n > 0 {
      MovesReach(s, d, n - 1);
      GoSelects(s, Moved(s, d, n - 1), d, Reached(d, l.swipe.index, last, n - 1));
    } else {
      AsItIs(s);
    }
  }

  lemma AsItIs(s: State)
    requires s.active.Some? && s.active.value in s.lanes
    ensures OnlySelects(s, s, IndexAt(s, s.active.value))
  {
    var l := s.lanes[s.active.value];
    assert l.(swipe := l.swipe.(index := l.swipe.index)) == l;
  }

  /** Selecting takes the active lane to the card asked for, or to the nearest there is;
      nothing else changes. */
  lemma SelectReaches(s: State, index: int)
    requires StateOk(s) && s.active.Some?
    ensures var last := Max(0, |s.lanes[s.active.value].decisions| - 1);
            OnlySelects(s, Obey(s, Pick(index)), if index < 0 then 0 else if index > last then last else index)
  {
    hide Aggregate;
    assert LaneOk(s.active.value, s.lanes[s.active.value]);
  }

  /** Snapshot `i` is the last of its project. */
  ghost predicate LastListed(syncs: seq<Sync>, hash: string, i: nat) {
    i < |syncs| && syncs[i].hash == hash && forall j: nat | i < j < |syncs| :: syncs[j].hash != hash
  }

  lemma {:induction false} ReplacedByLast(was: map<string, Lane>, syncs: seq<Sync>, hash: string)
    ensures var (order, lanes) := Replaced(was, syncs);
            && (hash in lanes <==> Listed(syncs, hash))
            && (syncs != [] ==> order != [] && order[0] == syncs[0].hash)
            && (syncs == [] ==> order == [])
            && forall i: nat | LastListed(syncs, hash, i) ::
                 && hash in lanes && lanes[hash].root == syncs[i].root && lanes[hash].readAt == syncs[i].readAt
                 && lanes[hash].decisions == Aggregate(syncs[i].decisions)
  {
    hide Aggregate, Listed, ResizeSwipe, CreateSwipe;
    if syncs == [] {
      NothingListed();
    } else {
      var n := |syncs| - 1;
      ReplacedByLast(was, syncs[..n], hash);
      ListedStep(syncs, hash);
      forall i: nat | LastListed(syncs, hash, i) && i < n
        ensures LastListed(syncs[..n], hash, i)
      {
      }
    }
  }

  /** After a refresh there is a lane for every project listed and for no other, with the
      deck of the last snapshot of that project; the active project stays active if it is
      still listed, and otherwise the first one listed is; intents stay. */
  lemma RefreshShowsTheLast(s: State, syncs: seq<Sync>, hash: string)
    ensures var t := Obey(s, Refresh(syncs));
            && (hash in t.lanes <==> Listed(syncs, hash))
            && (forall i: nat | LastListed(syncs, hash, i) ::
                  && hash in t.lanes && t.lanes[hash].root == syncs[i].root && t.lanes[hash].readAt == syncs[i].readAt
                  && t.lanes[hash].decisions == Aggregate(syncs[i].decisions))
            && t.active == (if s.active.Some? && Listed(syncs, s.active.value) then s.active
                            else if syncs == [] then None else Some(syncs[0].hash))
            && t.intents == s.intents
  {
    hide Aggregate, Listed, Replaced, LastListed;
    ReplacedByLast(s.lanes, syncs, hash);
    if s.active.Some? {
      ReplacedByLast(s.lanes, syncs, s.active.value);
    }
  }

  lemma {:induction false} ReplacedSwipe(was: map<string, Lane>, syncs: seq<Sync>, hash: string)
    ensures var lanes := Replaced(was, syncs).1;
            hash in lanes ==>
              var l := lanes[hash];
              l.swipe == if hash in was then ResizeSwipe(was[hash].swipe, |l.decisions|)
                         else CreateSwipe(|l.decisions|, 0)
  {
    hide Aggregate;
    if syncs != [] {
      ReplacedSwipe(was, syncs[..|syncs| - 1], hash);
    }
  }

  /** A refresh keeps the card selected in every lane it knew, as far as the new deck
      reaches, and starts a new lane at its first card. */
  lemma RefreshKeepsSelection(s: State, syncs: seq<Sync>, hash: string)
    requires StateOk(s) && hash in ReplaceProjects(s, syncs).lanes
    ensures var t := ReplaceProjects(s, syncs);
            var last := Max(0, |t.lanes[hash].decisions| - 1);
            IndexAt(t, hash) == if hash in s.lanes then Min(IndexAt(s, hash), last) else 0
  {
    hide Replaced, Aggregate;
    ReplacedSwipe(s.lanes, syncs, hash);
    assert hash in s.lanes ==> LaneOk(hash, s.lanes[hash]);
  }

  /** A known project stays active from its activation until another is activated or the
      deck is refreshed; activating an unknown one changes nothing. */
  lemma {:induction false} ActivatedStays(commands: seq<Command>, k: nat)
    requires k < |commands| && commands[k].Activate?
    ensures commands[k].hash in Run(commands[..k]).lanes &&
            (forall j | k < j < |commands| :: !commands[j].Activate? && !commands[j].Refresh?) ==>
              Run(commands).active == Some(commands[k].hash)
    ensures commands[k].hash !in Run(commands[..k]).lanes ==> Run(commands[..k + 1]) == Run(commands[..k])
  {
    hide ReplaceProjects;
    var n := |commands| - 1;
    assert commands[..k + 1][..k] == commands[..k];
    if k < n {
      assert commands[..n][..k] == commands[..k] && commands[..n][k] == commands[k];
      forall j | 0 <= j < n
        ensures commands[..n][j] == commands[j]
      {
      }
      ActivatedStays(commands[..n], k);
    } else {
      assert commands[..k + 1] == commands;
    }
  }

  /** The `k`-th command captured the intent, into a lane that was there, and nothing
      cleared it since. */
  ghost predicate KeptSince(commands: seq<Command>, k: nat, intent: Intent) {
    && k < |commands| && commands[k] == Capture(intent)
    && KnowsProject(Run(commands[..k]), intent)
    && Clear !in commands[k + 1..]
  }

  /** The key of the intent is that of a decision in a project of the deck. */
  ghost predicate KnowsProject(s: State, intent: Intent) {
    exists parts: DecisionKeys.Parts ::
      DecisionKeys.DecisionKey(parts) == DecisionKeys.Ok(intent.key) && parts.projectHash in s.lanes
  }

  lemma KnownIsNoError(s: State, intent: Intent)
    ensures KnowsProject(s, intent) <==> IntentError(s, intent).None?
  {
    hide DecisionKeys.DecisionKey, DecisionKeys.ParseDecisionKey;
    var parsed := DecisionKeys.ParseDecisionKey(intent.key);
    if parsed.Ok? {
      DecisionKeys.KeyOfParse(intent.key);
    }
    if parts: DecisionKeys.Parts :| DecisionKeys.DecisionKey(parts) == DecisionKeys.Ok(intent.key)
                                    && parts.projectHash in s.lanes {
      DecisionKeys.ParseOfKey(parts);
    }
  }

  lemma KeptStep(commands: seq<Command>, k: nat, intent: Intent)
    requires commands != [] && k < |commands| - 1
    ensures KeptSince(commands, k, intent) <==>
              KeptSince(commands[..|commands| - 1], k, intent) && commands[|commands| - 1] != Clear
  {
    hide Run, KnowsProject;
    var n := |commands| - 1;
    assert commands[..n][..k] == commands[..k];
    assert commands[k + 1..] == commands[..n][k + 1..] + [commands[n]];
  }

  /** The intents of a run are exactly those captured for a known project since the last clearing. */
  lemma {:induction false} IntentIff(commands: seq<Command>, intent: Intent)
    ensures intent in Run(commands).intents <==> exists k: nat :: KeptSince(commands, k, intent)
  {
    hide IntentError, KeptSince, ReplaceProjects, WithSwipe, KnowsProject;
    if commands != [] {
      var n := |commands| - 1;
      IntentIff(commands[..n], intent);
      forall k: nat | k < n
        ensures KeptSince(commands, k, intent) <==> KeptSince(commands[..n], k, intent) && commands[n] != Clear
      {
        KeptStep(commands, k, intent);
      }
      CapturedLast(commands, intent);
      KeptInRange(commands, intent);
      KeptInRange(commands[..n], intent);
      SwipesKeepIntents(Run(commands[..n]), commands[n]);
    } else {
      KeptInRange(commands, intent);
    }
  }

  lemma CapturedLast(commands: seq<Command>, intent: Intent)
    requires commands != []
    ensures var n := |commands| - 1;
            KeptSince(commands, n, intent) <==>
              commands[n] == Capture(intent) && IntentError(Run(commands[..n]), intent).None?
  {
    hide KnowsProject, IntentError;
    KnownIsNoError(Run(commands[..|commands| - 1]), intent);
  }

  lemma KeptInRange(commands: seq<Command>, intent: Intent)
    ensures forall k: nat | KeptSince(commands, k, intent) :: k < |commands|
  {
  }

  lemma SwipesKeepIntents(s: State, c: Command)
    ensures !c.Capture? && !c.Clear? ==> Obey(s, c).intents == s.intents
  {
  }

  // ----- the store -----

  class Store {
    var order: seq<string>
    var lanes: map<string, Lane>
    var active: Option<string>
    var intents: seq<Intent>

    ghost predicate Valid()
      reads this
    {
      StateOk(Data())
    }

    ghost function Data(): State
      reads this
    {
      State(order, lanes, active, intents)
    }

    constructor (initial: seq<Sync>)
      ensures Valid()
      ensures Data() == Run([Refresh(initial)])
    {
      order, lanes, active, intents := [], map[], None, [];
      new;
      Replace(initial);
      assert [Refresh(initial)][..0] == [];
    }

    method Replace(syncs: seq<Sync>)
      requires Valid()
      modifies this
      ensures Valid() && Data() == Obey(old(Data()), Refresh(syncs))
    {
      hide ResizeSwipe, CreateSwipe, Aggregate, LaneOk;
      ReplaceKeeps(Data(), syncs);
      var nextOrder: seq<string> := [];
      var next: map<string, Lane> := map[];
      for i := 0 to |syncs|
        invariant Data() == old(Data())
        invariant (nextOrder, next) == Replaced(lanes, syncs[..i])
      {
        assert syncs[..i + 1][..i] == syncs[..i];
        var sync := syncs[i];
        var decisions := AggregatePendingDecisions(sync.decisions);
        var previous := if sync.hash in lanes then lanes[sync.hash].swipe else CreateSwipe(|decisions|, 0);
        if sync.hash !in next {
          nextOrder := nextOrder + [sync.hash];
        }
        next := next[sync.hash :=
            Lane(sync.hash, sync.root, decisions, ResizeSwipe(previous, |decisions|), sync.readAt)];
      }
      assert syncs[..|syncs|] == syncs;
      order, lanes := nextOrder, next;
      if active.None? || active.value !in lanes {
        active := if order == [] then None else Some(order[0]);
      }
    }

    /** An unknown project is refused and nothing changes. */
    method SetActive(hash: string) returns (error: Option<StoreError>)
      requires Valid()
      modifies this
      ensures Valid()
      ensures error == if hash in old(lanes) then None else Some(UnknownProject)
      ensures Data() == Obey(old(Data()), Activate(hash))
    {
      if hash !in lanes {
        return Some(UnknownProject);
      }
      active := Some(hash);
      return None;
    }

    method Move(d: Direction)
      requires Valid()
      modifies this
      ensures Valid() && Data() == Obey(old(Data()), Go(d))
    {
      hide StateOk, MoveSwipe;
      MoveKeeps(Data(), d);
      if active.None? || active.value !in lanes {
        return;
      }
      var l := lanes[active.value];
      lanes := lanes[active.value := l.(swipe := MoveSwipe(l.swipe, d))];
    }

    method Select(index: int)
      requires Valid()
      modifies this
      ensures Valid() && Data() == Obey(old(Data()), Pick(index))
    {
      hide StateOk, SelectIndex;
      SelectKeeps(Data(), index);
      if active.None? || active.value !in lanes {
        return;
      }
      var l := lanes[active.value];
      lanes := lanes[active.value := l.(swipe := SelectIndex(l.swipe, index))];
    }

    /** An intent is kept exactly when its key parses and names a project of the deck. */
    method CaptureIntent(intent: Intent) returns (error: Option<StoreError>)
      requires Valid()
      modifies this
      ensures Valid() && error == IntentError(old(Data()), intent)
      ensures Data() == Obey(old(Data()), Capture(intent))
    {
      var parsed := DecisionKeys.ParseDecisionKey(intent.key);
      if parsed.Err? {
        return Some(BadKey(parsed.error));
      }
      if parsed.value.projectHash !in lanes {
        return Some(UnknownProject);
      }
      intents := intents + [intent];
      return None;
    }

    method ClearIntents()
      requires Valid()
      modifies this
      ensures Valid() && Data() == Obey(old(Data()), Clear)
    {
      intents := [];
    }

    method GetSnapshot() returns (s: Snapshot)
      requires Valid()
      ensures s == SnapshotOf(Data())
    {
      hide Aggregate, LaneOk;
      var decks: seq<Deck> := [];
      var all: seq<Decision> := [];
      for i := 0 to |order|
        invariant decks == Decks(Data(), order[..i]) && all == LaneDecisions(Data(), order[..i])
      {
        assert order[..i + 1][..i] == order[..i];
        assert order[i] in lanes;
        decks, all := decks + [DeckOf(lanes[order[i]])], all + lanes[order[i]].decisions;
      }
      assert order[..|order|] == order;
      var combined := AggregatePendingDecisions(all);
      var shown := if active.Some? && active.value in lanes then Some(DeckOf(lanes[active.value])) else None;
      return Snapshot(decks, combined, active, shown, intents);
    }
  }
}
