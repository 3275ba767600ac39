/**
 Serialized seat streams: the admission protocol that lets one bounded native
 process per refresh family hold renewable material at a time
 (packages/h2a-runtime/src/cli-seat-materialization.ts).

 The protocol lives in files.  A family's stream is the exclusively created
 directory `pending`, holding `ticket.json` and, at most once each,
 `materialized.json` and `capture.json`; next to it `handoff.json` is the tuple
 that the next stream has to continue.  This module gives the meaning of one
 call on one family's files and states what holds over whole runs of calls by
 any number of callers.  Each call is one atomic step.
 */
module SeatStreams {
  import opened Common

  /** Largest integer accepted by `Number.isSafeInteger`. */
  const MAX_SAFE_INTEGER: int := 9007199254740991

  datatype Predecessor = Predecessor(epoch: int, generation: int, operationId: string)

  /** Where a family's pending directory is.  The source names it by the runtime
      directory and a digest of the family; a pair is injective by construction. */
  datatype Place = Place(runtimeDir: string, familyRef: string)

  datatype Ticket = Ticket(streamOperationId: string, familyRef: string, predecessor: Predecessor, lockDir: Place)

  datatype Capture =
    | Fenced(scenarioFailed: bool)
    | SuccessorSealed(scenarioFailed: bool, successor: Predecessor)
    | UnchangedValidated(scenarioFailed: bool)

  datatype Outcome = Outcome(failed: bool, changed: bool, ambiguous: bool)

  datatype LiveState = LiveState(
    familyRef: string, streamOperationId: string, predecessor: Predecessor,
    cleanupComplete: bool, successorStored: bool, successor: Option<Predecessor>)

  /** What materialization finds around the admission gate: everything in order,
      a refusal before the exclusive mark is written, or a failure after it. */
  datatype Environment = Ready | RefusedBeforeMark | FailsAfterMark

  datatype Call =
    | Begin(familyRef: string, predecessor: Predecessor, runtimeDir: string, uuid: string)
    | Materialize(delegate: bool, presented: Option<Ticket>, bundleFamily: string, lifecycle: Predecessor,
                  environment: Environment)
    | CaptureResult(ticket: Ticket, outcome: Outcome, uuid: string)
    | Clear(ticket: Ticket, live: LiveState)

  datatype Error =
    | MissingFamily | InvalidPredecessor | RuntimeUnavailable | FamilyPending | DelegationRequired
    | StreamTicketRequired | StaleStream | AlreadyCaptured | EnvironmentRefused

  datatype Reply =
    | Admitted(ticket: Ticket)
    | Materialized
    | MaterializationFailed          // after the mark was written
    | Captured(capture: Capture)
    | Cleared(cleared: bool)
    | Refused(error: Error)

  /** The files of one family. */
  datatype Pending = Pending(ticket: Ticket, materialized: bool, capture: Option<Capture>)
  datatype Family = Family(handoff: Option<Predecessor>, pending: Option<Pending>)

  const NEW_FAMILY := Family(None, None)

  predicate ValidPredecessor(p: Predecessor) {
    && 1 <= p.epoch <= MAX_SAFE_INTEGER
    && 0 <= p.generation <= MAX_SAFE_INTEGER
    && !Blank(p.operationId)
  }

  // ----- one call -----

  predicate IsPendingStream(f: Family, ticket: Ticket) {
    f.pending.Some? && f.pending.value.ticket == ticket
  }

  function BeginStep(f: Family, place: Place, predecessor: Predecessor, uuid: string): (Family, Reply) {
    if Blank(place.familyRef) then (f, Refused(MissingFamily))
    else if !ValidPredecessor(predecessor) then (f, Refused(InvalidPredecessor))
    else if place.runtimeDir == "" then (f, Refused(RuntimeUnavailable))
    else if f.pending.Some? then (f, Refused(FamilyPending))
    else if f.handoff.Some? && f.handoff.value != predecessor then (f, Refused(InvalidPredecessor))
    else
      var ticket := Ticket("stream-" + uuid, place.familyRef, predecessor, place);
      (f.(pending := Some(Pending(ticket, false, None))), Admitted(ticket))
  }

  predicate TicketAccepted(f: Family, ticket: Ticket, bundleFamily: string, lifecycle: Predecessor) {
    IsPendingStream(f, ticket) && ticket.familyRef == bundleFamily && ticket.predecessor == lifecycle
  }

  function MaterializeStep(f: Family, delegate: bool, ticket: Ticket, bundleFamily: string, lifecycle: Predecessor,
                           environment: Environment): (Family, Reply)
  {
    if !delegate then (f, Refused(DelegationRequired))
    else if !TicketAccepted(f, ticket, bundleFamily, lifecycle) then (f, Refused(StreamTicketRequired))
    else if environment.RefusedBeforeMark? then (f, Refused(EnvironmentRefused))
    else if f.pending.value.materialized then (f, Refused(FamilyPending))
    else
      (f.(pending := Some(f.pending.value.(materialized := true))),
       if environment.Ready? then Materialized else MaterializationFailed)
  }

  function CaptureOf(ticket: Ticket, outcome: Outcome, uuid: string): Capture {
    if outcome.ambiguous then Fenced(outcome.failed)
    else if outcome.changed then
      SuccessorSealed(outcome.failed,
                      Predecessor(ticket.predecessor.epoch, ticket.predecessor.generation + 1, "bundle-" + uuid))
    else UnchangedValidated(outcome.failed)
  }

  function CaptureStep(f: Family, ticket: Ticket, outcome: Outcome, uuid: string): (Family, Reply) {
    if !IsPendingStream(f, ticket) then (f, Refused(StaleStream))
    else if f.pending.value.capture.Some? then (f, Refused(AlreadyCaptured))
    else
      var capture := CaptureOf(ticket, outcome, uuid);
      (f.(pending := Some(f.pending.value.(capture := Some(capture)))), Captured(capture))
  }

  /** The tuple that clearing a captured stream hands on, when the capture and
      the live state allow clearing at all. */
  function Handoff(ticket: Ticket, capture: Capture, live: LiveState): Option<Predecessor> {
    match capture
    case Fenced(_) => None
    case SuccessorSealed(_, successor) =>
      if live.successorStored && live.successor == Some(successor) then Some(successor) else None
    case UnchangedValidated(_) => Some(ticket.predecessor)
  }

  predicate LiveMatches(ticket: Ticket, live: LiveState) {
    && live.cleanupComplete
    && live.familyRef == ticket.familyRef
    && live.streamOperationId == ticket.streamOperationId
    && live.predecessor == ticket.predecessor
  }

  function ClearStep(f: Family, ticket: Ticket, live: LiveState): (Family, Reply) {
    if !IsPendingStream(f, ticket) || !LiveMatches(ticket, live) || f.pending.value.capture.None? then
      (f, Cleared(false))
    else
      match Handoff(ticket, f.pending.value.capture.value, live)
      case None => (f, Cleared(false))
      case Some(next) => (Family(Some(next), None), Cleared(true))
  }

  /** The family whose files a call touches; a materialization without a ticket touches none. */
  function PlaceOf(call: Call): Option<Place> {
    match call
    case Begin(familyRef, _, runtimeDir, _) => Some(Place(runtimeDir, familyRef))
    case Materialize(_, ticket, _, _, _) => if ticket.Some? then Some(ticket.value.lockDir) else None
    case CaptureResult(ticket, _, _) => Some(ticket.lockDir)
    case Clear(ticket, _) => Some(ticket.lockDir)
  }

  function FamilyStep(f: Family, call: Call): (Family, Reply) {
    match call
    case Begin(familyRef, predecessor, runtimeDir, uuid) =>
      BeginStep(f, Place(runtimeDir, familyRef), predecessor, uuid)
    case Materialize(delegate, ticket, bundleFamily, lifecycle, environment) =>
      if ticket.None? then (f, Refused(if delegate then StreamTicketRequired else DelegationRequired))
      else MaterializeStep(f, delegate, ticket.value, bundleFamily, lifecycle, environment)
    case CaptureResult(ticket, outcome, uuid) => CaptureStep(f, ticket, outcome, uuid)
    case Clear(ticket, live) => ClearStep(f, ticket, live)
  }

  // ----- runs -----

  type Store = map<Place, Family>

  function At(store: Store, p: Place): Family {
    if p in store then store[p] else NEW_FAMILY
  }

  function Step(store: Store, call: Call): (Store, Reply) {
    match PlaceOf(call)
    case None => (store, FamilyStep(NEW_FAMILY, call).1)
    case Some(p) =>
      var (f, reply) := FamilyStep(At(store, p), call);
      (store[p := f], reply)
  }

  function Run(calls: seq<Call>): Store {
    if calls == [] then map[] else Step(Run(calls[..|calls| - 1]), calls[|calls| - 1]).0
  }

  /** What call number `i` of a run was answered. */
  function ReplyAt(calls: seq<Call>, i: nat): Reply
    requires i < |calls|
  {
    Step(Run(calls[..i]), calls[i]).1
  }

  /** The family at `p` when call number `i` of a run is made (or at its end). */
  function Before(calls: seq<Call>, i: nat, p: Place): Family
    requires i <= |calls|
  {
    At(Run(calls[..i]), p)
  }

  lemma RunStep(calls: seq<Call>, i: nat, p: Place)
    requires i < |calls|
    ensures PlaceOf(calls[i]) == Some(p) ==>
              FamilyStep(Before(calls, i, p), calls[i]) == (Before(calls, i + 1, p), ReplyAt(calls, i))
    ensures PlaceOf(calls[i]) != Some(p) ==> Before(calls, i + 1, p) == Before(calls, i, p)
  {
    assert calls[..i + 1][..i] == calls[..i];
  }

  predicate AdmittedAt(calls: seq<Call>, i: nat, p: Place)
    requires i < |calls|
  {
    PlaceOf(calls[i]) == Some(p) && ReplyAt(calls, i).Admitted?
  }

  predicate ClearedAt(calls: seq<Call>, i: nat, ticket: Ticket)
    requires i < |calls|
  {
    calls[i].Clear? && calls[i].ticket == ticket && ReplyAt(calls, i) == Cleared(true)
  }

  /** The call wrote `materialized.json` for `ticket`. */
  predicate MarkedAt(calls: seq<Call>, i: nat, ticket: Ticket)
    requires i < |calls|
  {
    calls[i].Materialize? && calls[i].presented == Some(ticket) &&
    (ReplyAt(calls, i).Materialized? || ReplyAt(calls, i).MaterializationFailed?)
  }

  /** No two streams are begun with the same random identifier. */
  ghost predicate FreshStreamIds(calls: seq<Call>) {
    forall i, j | 0 <= i < j < |calls| && calls[i].Begin? && calls[j].Begin? :: calls[i].uuid != calls[j].uuid
  }

  // ----- at most one pending stream, at most one materialization -----

  lemma {:induction false} PendingUntilCleared(calls: seq<Call>, i: nat, j: nat, p: Place)
    requires i < j <= |calls| && AdmittedAt(calls, i, p)
    requires forall k | i < k < j :: !ClearedAt(calls, k, ReplyAt(calls, i).ticket)
    ensures IsPendingStream(Before(calls, j, p), ReplyAt(calls, i).ticket)
  {
    RunStep(calls, i, p);
    if i + 1 < j {
      PendingUntilCleared(calls, i, j - 1, p);
      RunStep(calls, j - 1, p);
      assert !ClearedAt(calls, j - 1, ReplyAt(calls, i).ticket);
    }
  }

  /** Two streams are admitted for one family only if the first was cleared in between. */
  lemma OneStreamAtATime(calls: seq<Call>, i: nat, j: nat, p: Place)
    requires i < j < |calls| && AdmittedAt(calls, i, p) && AdmittedAt(calls, j, p)
    ensures exists k | i < k < j :: ClearedAt(calls, k, ReplyAt(calls, i).ticket)
  {
    if forall k | i < k < j :: !ClearedAt(calls, k, ReplyAt(calls, i).ticket) {
      PendingUntilCleared(calls, i, j, p);
      RunStep(calls, j, p);
    }
  }

  /** A pending ticket carries the identifier of an earlier begin of its own family. */
  lemma {:induction false} PendingWasBegun(calls: seq<Call>, n: nat, p: Place)
    requires n <= |calls| && Before(calls, n, p).pending.Some?
    ensures Before(calls, n, p).pending.value.ticket.lockDir == p
    ensures Before(calls, n, p).pending.value.ticket.familyRef == p.familyRef
    ensures exists k | 0 <= k < n ::
              calls[k].Begin? &&
              Before(calls, n, p).pending.value.ticket.streamOperationId == "stream-" + calls[k].uuid
  {
    assert n > 0;
    RunStep(calls, n - 1, p);
    if Before(calls, n - 1, p).pending.Some? {
      PendingWasBegun(calls, n - 1, p);
    }
  }

  /** A ticket that can no longer be materialized: it is not pending, or it was used. */
  predicate Spent(f: Family, ticket: Ticket) {
    IsPendingStream(f, ticket) ==> f.pending.value.materialized
  }

  lemma {:induction false} SpentForever(calls: seq<Call>, i: nat, j: nat, k: nat, ticket: Ticket)
    requires FreshStreamIds(calls) && k < i <= j <= |calls|
    requires calls[k].Begin? && ticket.streamOperationId == "stream-" + calls[k].uuid
    requires Spent(Before(calls, i, ticket.lockDir), ticket)
    ensures Spent(Before(calls, j, ticket.lockDir), ticket)
    decreases j
  {
    if i < j {
      SpentForever(calls, i, j - 1, k, ticket);
      RunStep(calls, j - 1, ticket.lockDir);
      if calls[j - 1].Begin? {
        assert calls[k].uuid != calls[j - 1].uuid;
        assert ("stream-" + calls[k].uuid)[7..] == calls[k].uuid;
        assert ("stream-" + calls[j - 1].uuid)[7..] == calls[j - 1].uuid;
      }
    }
  }

  /** Whoever holds a copy of a ticket, it serves for at most one renewable materialization. */
  lemma AtMostOneMaterialization(calls: seq<Call>, i: nat, j: nat, ticket: Ticket)
    requires FreshStreamIds(calls) && i < j < |calls|
    requires MarkedAt(calls, i, ticket)
    ensures !MarkedAt(calls, j, ticket)
  {
    var p := ticket.lockDir;
    RunStep(calls, i, p);
    RunStep(calls, j, p);
    PendingWasBegun(calls, i, p);
    var k :| 0 <= k < i && calls[k].Begin? && ticket.streamOperationId == "stream-" + calls[k].uuid;
    SpentForever(calls, i + 1, j, k, ticket);
  }

  // ----- exactly when a call succeeds, and what it leaves behind -----

  /** A begin is admitted exactly for a named family with a valid predecessor, a runtime
      directory, no pending stream and no other persisted handoff; the first guard that
      fails names the refusal, and a refused begin leaves the family as it was. */
  lemma AdmittedIff(calls: seq<Call>, i: nat)
    requires i < |calls| && calls[i].Begin?
    ensures
      var c := calls[i];
      var p := Place(c.runtimeDir, c.familyRef);
      var f := Before(calls, i, p);
      var valid := && 1 <= c.predecessor.epoch <= 9007199254740991
                   && 0 <= c.predecessor.generation <= 9007199254740991 && !Blank(c.predecessor.operationId);
      var continues := f.handoff.None? || f.handoff == Some(c.predecessor);
      var ticket := Ticket("stream-" + c.uuid, c.familyRef, c.predecessor, p);
      if !Blank(c.familyRef) && valid && c.runtimeDir != "" && f.pending.None? && continues then
        && ReplyAt(calls, i) == Admitted(ticket)
        && Before(calls, i + 1, p) == Family(f.handoff, Some(Pending(ticket, false, None)))
      else
        && ReplyAt(calls, i) == Refused(if Blank(c.familyRef) then MissingFamily
                                        else if !valid then InvalidPredecessor
                                        else if c.runtimeDir == "" then RuntimeUnavailable
                                        else if f.pending.Some? then FamilyPending
                                        else InvalidPredecessor)
        && Before(calls, i + 1, p) == f
  {
    hide Run, Step, Blank;
    RunStep(calls, i, Place(calls[i].runtimeDir, calls[i].familyRef));
  }

  /** Exactly when the exclusive mark is written.  The capture plays no part: a
      stream that was already captured, even fenced, can still be materialized
      once, although the refusal of a second mark speaks of fencing. */
  lemma MarkedIff(calls: seq<Call>, i: nat, ticket: Ticket)
    requires i < |calls| && calls[i].Materialize? && calls[i].presented == Some(ticket)
    ensures
      var c := calls[i];
      var f := Before(calls, i, ticket.lockDir);
      MarkedAt(calls, i, ticket) <==>
        && c.delegate && !c.environment.RefusedBeforeMark?
        && f.pending.Some? && f.pending.value.ticket == ticket
        && ticket.familyRef == c.bundleFamily && ticket.predecessor == c.lifecycle
        && !f.pending.value.materialized
    ensures
      var f := Before(calls, i, ticket.lockDir);
      if MarkedAt(calls, i, ticket) then
        && f.pending.Some?
        && Before(calls, i + 1, ticket.lockDir) ==
             Family(f.handoff, Some(Pending(ticket, true, f.pending.value.capture)))
        && (ReplyAt(calls, i) == Materialized <==> calls[i].environment.Ready?)
      else ReplyAt(calls, i).Refused? && Before(calls, i + 1, ticket.lockDir) == f
  {
    hide Run, Step;
    RunStep(calls, i, ticket.lockDir);
  }

  /** A result is captured exactly once, for the pending ticket: fenced when side effects
      are ambiguous, sealed with the next generation when the material changed, and
      otherwise unchanged. */
  lemma CapturedIff(calls: seq<Call>, i: nat)
    requires i < |calls| && calls[i].CaptureResult?
    ensures
      var c := calls[i];
      var from := c.ticket.predecessor;
      var f := Before(calls, i, c.ticket.lockDir);
      var capture :=
        if c.outcome.ambiguous then Fenced(c.outcome.failed)
        else if c.outcome.changed
        then SuccessorSealed(c.outcome.failed, Predecessor(from.epoch, from.generation + 1, "bundle-" + c.uuid))
        else UnchangedValidated(c.outcome.failed);
      if f.pending.Some? && f.pending.value.ticket == c.ticket && f.pending.value.capture.None? then
        && ReplyAt(calls, i) == Captured(capture)
        && Before(calls, i + 1, c.ticket.lockDir) ==
             Family(f.handoff, Some(Pending(c.ticket, f.pending.value.materialized, Some(capture))))
      else
        && ReplyAt(calls, i) == Refused(if f.pending.Some? && f.pending.value.ticket == c.ticket then AlreadyCaptured
                                        else StaleStream)
        && Before(calls, i + 1, c.ticket.lockDir) == f
  {
    hide Run, Step;
    RunStep(calls, i, calls[i].ticket.lockDir);
  }

  /** A clearance succeeds exactly for the pending ticket with a capture that is not
      fenced and a live state that reports this very stream cleaned up and, where a
      successor was sealed, that very successor stored; it hands on the successor or the
      predecessor.  Any other leaves the family as it was. */
  lemma ClearedIff(calls: seq<Call>, i: nat)
    requires i < |calls| && calls[i].Clear?
    ensures
      var ticket, live := calls[i].ticket, calls[i].live;
      var f := Before(calls, i, ticket.lockDir);
      var after := Before(calls, i + 1, ticket.lockDir);
      if && f.pending.Some? && f.pending.value.ticket == ticket
         && f.pending.value.capture.Some? && !f.pending.value.capture.value.Fenced?
         && live.cleanupComplete && live.familyRef == ticket.familyRef
         && live.streamOperationId == ticket.streamOperationId && live.predecessor == ticket.predecessor
         && (f.pending.value.capture.value.SuccessorSealed? ==>
               live.successorStored && live.successor == Some(f.pending.value.capture.value.successor))
      then
        && ReplyAt(calls, i) == Cleared(true)
        && (f.pending.value.capture.value.SuccessorSealed? ==>
              after == Family(Some(f.pending.value.capture.value.successor), None))
        && (f.pending.value.capture.value.UnchangedValidated? ==> after == Family(Some(ticket.predecessor), None))
      else ReplyAt(calls, i) == Cleared(false) && after == f
  {
    hide Run, Step;
    RunStep(calls, i, calls[i].ticket.lockDir);
  }

  /** A call touches the files of its own family only. */
  lemma OtherFamiliesStay(calls: seq<Call>, i: nat, p: Place)
    requires i < |calls|
    requires match calls[i]
             case Begin(familyRef, _, runtimeDir, _) => p != Place(runtimeDir, familyRef)
             case Materialize(_, presented, _, _, _) => presented.None? || p != presented.value.lockDir
             case CaptureResult(ticket, _, _) => p != ticket.lockDir
             case Clear(ticket, _) => p != ticket.lockDir
    ensures Before(calls, i + 1, p) == Before(calls, i, p)
  {
    hide Run, Step;
    RunStep(calls, i, p);
  }

  lemma FencedStreamCanBeMaterialized()
    ensures
      var start := Predecessor(1, 0, "op");
      var place := Place("/run", "family");
      var ticket := Ticket("stream-a", "family", start, place);
      var calls := [Begin("family", start, "/run", "a"), CaptureResult(ticket, Outcome(false, false, true), "b"),
                    Materialize(true, Some(ticket), "family", start, Ready)];
      ReplyAt(calls, 1) == Captured(Fenced(false)) && ReplyAt(calls, 2) == Materialized
  {
    var start := Predecessor(1, 0, "op");
    var place := Place("/run", "family");
    var ticket := Ticket("stream-a", "family", start, place);
    var calls := [Begin("family", start, "/run", "a"), CaptureResult(ticket, Outcome(false, false, true), "b"),
                  Materialize(true, Some(ticket), "family", start, Ready)];
    assert !IsSpace("op"[0]) && !IsSpace("family"[0]);
    assert "stream-" + "a" == "stream-a";
    assert calls[..0] == [];
    RunStep(calls, 0, place);
    RunStep(calls, 1, place);
    RunStep(calls, 2, place);
  }

  // ----- the handoff chain -----

  /** The predecessor presented by the first stream ever admitted for `p`. */
  function FirstAdmitted(calls: seq<Call>, p: Place): Option<Predecessor> {
    if calls == [] then None
    else
      var n := |calls| - 1;
      var earlier := FirstAdmitted(calls[..n], p);
      if earlier.Some? then earlier
      else if AdmittedAt(calls, n, p) then Some(ReplyAt(calls, n).ticket.predecessor)
      else None
  }

  /** Call number `i` cleared a stream of `p` whose capture sealed a successor. */
  predicate ClearedChangeAt(calls: seq<Call>, i: nat, p: Place)
    requires i < |calls|
  {
    && calls[i].Clear? && calls[i].ticket.lockDir == p && ReplyAt(calls, i) == Cleared(true)
    && Before(calls, i, p).pending.Some?
    && Before(calls, i, p).pending.value.capture.Some?
    && Before(calls, i, p).pending.value.capture.value.SuccessorSealed?
  }

  function ClearedChanges(calls: seq<Call>, p: Place): nat {
    if calls == [] then 0
    else
      var n := |calls| - 1;
      ClearedChanges(calls[..n], p) + if ClearedChangeAt(calls, n, p) then 1 else 0
  }

  /** The tuple that describes the family's material now. */
  function Current(f: Family): Option<Predecessor> {
    if f.handoff.Some? then f.handoff
    else if f.pending.Some? then Some(f.pending.value.ticket.predecessor)
    else None
  }

  /** `next` is `first` after `changes` sealed successors. */
  predicate Advanced(first: Predecessor, changes: nat, next: Predecessor) {
    && next.epoch == first.epoch
    && next.generation == first.generation + changes
    && (changes == 0 ==> next == first)
  }

  ghost predicate WellChained(f: Family) {
    && (f.pending.Some? ==> Current(f) == Some(f.pending.value.ticket.predecessor))
    && (f.pending.Some? ==> ValidPredecessor(f.pending.value.ticket.predecessor))
    && (f.pending.Some? && f.pending.value.capture.Some? && f.pending.value.capture.value.SuccessorSealed? ==>
          var sealed := f.pending.value.capture.value.successor;
          var from := f.pending.value.ticket.predecessor;
          sealed.epoch == from.epoch && sealed.generation == from.generation + 1 && !Blank(sealed.operationId))
    && (f.handoff.Some? ==>
          var h := f.handoff.value;
          1 <= h.epoch <= MAX_SAFE_INTEGER && 0 <= h.generation <= MAX_SAFE_INTEGER + 1 && !Blank(h.operationId))
  }

  lemma StepKeepsChain(f: Family, call: Call)
    requires WellChained(f)
    ensures WellChained(FamilyStep(f, call).0)
  {
    if call.CaptureResult? {
      assert !IsSpace(("bundle-" + call.uuid)[0]);
    }
  }

  /** How one call moves the family's current tuple. */
  lemma StepMovesCurrent(f: Family, call: Call)
    requires WellChained(f)
    ensures var (g, reply) := FamilyStep(f, call);
            && (reply.Admitted? ==>
                  && g.handoff == f.handoff && Current(g) == Some(reply.ticket.predecessor)
                  && (Current(f).Some? ==> Current(g) == Current(f)))
            && (!reply.Admitted? && reply != Cleared(true) ==> Current(g) == Current(f) && (f == NEW_FAMILY ==> g == f))
            && (reply == Cleared(true) ==>
                  && call.Clear? && f.pending.Some? && f.pending.value.capture.Some? && Current(f).Some?
                  && Current(g).Some?
                  && Advanced(Current(f).value, if f.pending.value.capture.value.SuccessorSealed? then 1 else 0,
                              Current(g).value))
  {
  }

  lemma {:induction false} ChainInvariant(calls: seq<Call>, p: Place)
    ensures WellChained(At(Run(calls), p))
    ensures match FirstAdmitted(calls, p)
            case None => At(Run(calls), p) == NEW_FAMILY && ClearedChanges(calls, p) == 0
            case Some(first) =>
              Current(At(Run(calls), p)).Some? &&
              Advanced(first, ClearedChanges(calls, p), Current(At(Run(calls), p)).value)
  {
    hide Step, FamilyStep;
    if calls != [] {
      var n := |calls| - 1;
      ChainInvariant(calls[..n], p);
      RunStep(calls, n, p);
      assert calls[..n + 1] == calls;
      StepKeepsChain(Before(calls, n, p), calls[n]);
      StepMovesCurrent(Before(calls, n, p), calls[n]);
    }
  }

  /** Every admitted stream continues exactly the persisted handoff, in the epoch
      of the family's first stream, one generation further per cleared change. */
  lemma AdmittedContinuesHandoff(calls: seq<Call>, i: nat, p: Place)
    requires i < |calls| && AdmittedAt(calls, i, p)
    ensures calls[i].Begin? && ReplyAt(calls, i).ticket.predecessor == calls[i].predecessor
    ensures Before(calls, i, p).pending.None?
    ensures match FirstAdmitted(calls[..i], p)
            case None => Before(calls, i, p).handoff.None?
            case Some(first) =>
              && Before(calls, i, p).handoff == Some(calls[i].predecessor)
              && Advanced(first, ClearedChanges(calls[..i], p), calls[i].predecessor)
  {
    ChainInvariant(calls[..i], p);
    RunStep(calls, i, p);
  }

  // ----- fencing, and exactly when a family is lost -----

  predicate IsFenced(f: Family) {
    f.pending.Some? && f.pending.value.capture.Some? && f.pending.value.capture.value.Fenced?
  }

  lemma FencedStep(f: Family, call: Call)
    requires IsFenced(f)
    ensures var (g, reply) := FamilyStep(f, call);
            && IsFenced(g) && g.handoff == f.handoff
            && g.pending.value.ticket == f.pending.value.ticket
            && g.pending.value.capture == f.pending.value.capture
            && !reply.Admitted? && reply != Cleared(true)
            && (call.Clear? ==> reply == Cleared(false))
  {
  }

  /** Fencing is permanent: in every continuation the fenced ticket stays pending
      with its capture, no stream of the family begins and nothing clears it. */
  lemma {:induction false} FencedForever(calls: seq<Call>, i: nat, j: nat, p: Place)
    requires i <= j <= |calls| && IsFenced(Before(calls, i, p))
    ensures IsFenced(Before(calls, j, p))
    ensures Before(calls, j, p).pending.value.ticket == Before(calls, i, p).pending.value.ticket
    ensures Before(calls, j, p).pending.value.capture == Before(calls, i, p).pending.value.capture
    ensures Before(calls, j, p).handoff == Before(calls, i, p).handoff
    ensures j < |calls| ==> !AdmittedAt(calls, j, p)
    ensures j < |calls| && calls[j].Clear? && calls[j].ticket.lockDir == p ==> ReplyAt(calls, j) == Cleared(false)
    decreases j
  {
    hide Step, FamilyStep, Run;
    if i < j {
      FencedForever(calls, i, j - 1, p);
      RunStep(calls, j - 1, p);
      FencedStep(Before(calls, j - 1, p), calls[j - 1]);
    }
    if j < |calls| {
      RunStep(calls, j, p);
      FencedStep(Before(calls, j, p), calls[j]);
    }
  }

  /** The tuple the next stream would have to present, if no further call but a
      successful clearance intervened. */
  function NextHandoff(f: Family): Option<Predecessor> {
    if f.pending.Some? && f.pending.value.capture.Some? && f.pending.value.capture.value.SuccessorSealed?
    then Some(f.pending.value.capture.value.successor)
    else Current(f)
  }

  /** Fenced, or run out of generations: the last safe integer was used and its
      successor sealed, so the handoff is no valid predecessor any more. */
  predicate Lost(f: Family) {
    IsFenced(f) || (NextHandoff(f).Some? && NextHandoff(f).value.generation > MAX_SAFE_INTEGER)
  }

  lemma LostStep(f: Family, call: Call)
    requires WellChained(f) && Lost(f)
    ensures Lost(FamilyStep(f, call).0)
    ensures !FamilyStep(f, call).1.Admitted?
  {
  }

  lemma {:induction false} LostForever(calls: seq<Call>, i: nat, j: nat, p: Place)
    requires i <= j <= |calls| && Lost(Before(calls, i, p))
    ensures Lost(Before(calls, j, p))
    ensures j < |calls| ==> !AdmittedAt(calls, j, p)
    decreases j
  {
    hide Step, FamilyStep, Run;
    if i < j {
      LostForever(calls, i, j - 1, p);
      RunStep(calls, j - 1, p);
      ChainInvariant(calls[..j - 1], p);
      LostStep(Before(calls, j - 1, p), calls[j - 1]);
    }
    if j < |calls| {
      ChainInvariant(calls[..j], p);
      RunStep(calls, j, p);
      LostStep(Before(calls, j, p), calls[j]);
    }
  }

  /** A live state that reports the stream of `ticket` cleaned up and `next` stored. */
  function CompleteLive(ticket: Ticket, next: Predecessor): LiveState {
    LiveState(ticket.familyRef, ticket.streamOperationId, ticket.predecessor, true, true, Some(next))
  }

  /** Calls that bring a family that is not lost to its next admitted stream. */
  function WayOn(f: Family, p: Place): seq<Call> {
    match f.pending
    case None =>
      [Begin(p.familyRef, f.handoff.GetOr(Predecessor(1, 0, "op")), p.runtimeDir, "next")]
    case Some(Pending(ticket, _, capture)) =>
      var next := NextHandoff(f).value;
      var clear := Clear(ticket, CompleteLive(ticket, next));
      var begin := Begin(p.familyRef, next, p.runtimeDir, "next");
      if capture.None? then [CaptureResult(ticket, Outcome(false, false, false), "c"), clear, begin] else [clear, begin]
  }

  lemma RunAppend(calls: seq<Call>, call: Call, p: Place)
    requires PlaceOf(call) == Some(p)
    ensures FamilyStep(At(Run(calls), p), call) == (At(Run(calls + [call]), p), ReplyAt(calls + [call], |calls|))
  {
    assert (calls + [call])[..|calls|] == calls;
  }

  lemma BeginIsAdmitted(calls: seq<Call>, p: Place, predecessor: Predecessor)
    requires !Blank(p.familyRef) && p.runtimeDir != "" && ValidPredecessor(predecessor)
    requires At(Run(calls), p).pending.None?
    requires At(Run(calls), p).handoff.None? || At(Run(calls), p).handoff == Some(predecessor)
    ensures AdmittedAt(calls + [Begin(p.familyRef, predecessor, p.runtimeDir, "next")], |calls|, p)
  {
    hide Run, Step;
    RunAppend(calls, Begin(p.familyRef, predecessor, p.runtimeDir, "next"), p);
  }

  /** Clearing a captured stream that is neither fenced nor out of generations admits the next one. */
  lemma CapturedWayOn(calls: seq<Call>, p: Place, ticket: Ticket, next: Predecessor)
    requires !Blank(p.familyRef) && p.runtimeDir != "" && ValidPredecessor(next) && ticket.lockDir == p
    requires var f := At(Run(calls), p);
             && IsPendingStream(f, ticket) && f.pending.value.capture.Some? && !f.pending.value.capture.value.Fenced?
             && NextHandoff(f) == Some(next) && Current(f) == Some(ticket.predecessor)
    ensures var way := [Clear(ticket, CompleteLive(ticket, next)), Begin(p.familyRef, next, p.runtimeDir, "next")];
            AdmittedAt(calls + way, |calls| + 1, p)
  {
    hide Run, Step, ReplyAt;
    var clear := Clear(ticket, CompleteLive(ticket, next));
    RunAppend(calls, clear, p);
    assert At(Run(calls + [clear]), p) == Family(Some(next), None);
    BeginIsAdmitted(calls + [clear], p, next);
    var begin := Begin(p.familyRef, next, p.runtimeDir, "next");
    assert (calls + [clear]) + [begin] == calls + [clear, begin];
  }

  lemma UnchangedCapture(f: Family, ticket: Ticket)
    requires IsPendingStream(f, ticket) && f.pending.value.capture.None?
    ensures FamilyStep(f, CaptureResult(ticket, Outcome(false, false, false), "c")).0 ==
              f.(pending := Some(f.pending.value.(capture := Some(UnchangedValidated(false)))))
  {
  }

  lemma UncapturedWayOn(calls: seq<Call>, p: Place)
    requires !Blank(p.familyRef) && p.runtimeDir != ""
    requires var f := At(Run(calls), p); f.pending.Some? && f.pending.value.capture.None? && WellChained(f)
    requires At(Run(calls), p).pending.value.ticket.lockDir == p
    ensures var ticket := At(Run(calls), p).pending.value.ticket;
            var next := ticket.predecessor;
            var way := [CaptureResult(ticket, Outcome(false, false, false), "c"),
                        Clear(ticket, CompleteLive(ticket, next)), Begin(p.familyRef, next, p.runtimeDir, "next")];
            AdmittedAt(calls + way, |calls| + 2, p)
  {
    hide Run, Step, ReplyAt, FamilyStep;
    var ticket := At(Run(calls), p).pending.value.ticket;
    var next := ticket.predecessor;
    var capture := CaptureResult(ticket, Outcome(false, false, false), "c");
    RunAppend(calls, capture, p);
    UnchangedCapture(At(Run(calls), p), ticket);
    CapturedWayOn(calls + [capture], p, ticket, next);
    var way := [Clear(ticket, CompleteLive(ticket, next)), Begin(p.familyRef, next, p.runtimeDir, "next")];
    var all := [capture, Clear(ticket, CompleteLive(ticket, next)), Begin(p.familyRef, next, p.runtimeDir, "next")];
    assert (calls + [capture]) + way == calls + all;
  }

  lemma WayOnLeadsToAdmission(calls: seq<Call>, p: Place)
    requires !Blank(p.familyRef) && p.runtimeDir != ""
    requires !Lost(At(Run(calls), p))
    ensures var way := WayOn(At(Run(calls), p), p);
            way != [] && AdmittedAt(calls + way, |calls + way| - 1, p)
  {
    hide Run, AdmittedAt, FamilyStep, At, Step;
    var f := At(Run(calls), p);
    ChainInvariant(calls, p);
    assert calls[..|calls|] == calls;
    if f.pending.None? {
      assert !IsSpace("op"[0]);
      BeginIsAdmitted(calls, p, f.handoff.GetOr(Predecessor(1, 0, "op")));
    } else {
      PendingWasBegun(calls, |calls|, p);
      if f.pending.value.capture.None? {
        UncapturedWayOn(calls, p);
      } else {
        CapturedWayOn(calls, p, f.pending.value.ticket, NextHandoff(f).value);
      }
    }
  }

  /** A family never admits a stream again, whatever is called, if and only if it
      is fenced or its generations are exhausted. */
  lemma NeverAdmittedAgainIff(calls: seq<Call>, p: Place)
    requires !Blank(p.familyRef) && p.runtimeDir != ""
    ensures Lost(At(Run(calls), p)) <==>
              forall more: seq<Call> :: more != [] ==> !AdmittedAt(calls + more, |calls + more| - 1, p)
  {
    if Lost(At(Run(calls), p)) {
      forall more: seq<Call> | more != []
        ensures !AdmittedAt(calls + more, |calls + more| - 1, p)
      {
        assert (calls + more)[..|calls|] == calls;
        LostForever(calls + more, |calls|, |calls + more| - 1, p);
      }
    } else {
      WayOnLeadsToAdmission(calls, p);
    }
  }
}
