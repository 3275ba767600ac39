/**
 The seat-stream calls as file operations: exclusive directory and file creation,
 rename and recursive removal over one private runtime tree
 (packages/h2a-runtime/src/cli-seat-materialization.ts, with the primitives of
 packages/h2a-runtime/src/cli-seat-codecs.ts).  Every method is proved to be the
 step that module SeatStreams defines on the family it touches, and to leave
 every other family's files alone.
 */
module SeatFiles {
  import opened Common
  import opened SeatStreams

  /** The files of the protocol; the last one is the handoff before its rename. */
  datatype Path =
    | TicketFile(place: Place)
    | MaterializedFile(place: Place)
    | CaptureFile(place: Place)
    | HandoffFile(place: Place)
    | HandoffDraft(place: Place)

  datatype Content =
    | TicketJson(ticket: Ticket)
    | MarkJson(streamOperationId: string)
    | CaptureJson(capture: Capture)
    | HandoffJson(predecessor: Predecessor)

  predicate InLockDir(path: Path) {
    !path.HandoffFile?
  }

  class SeatRuntime {
    /** Pending directories, and every file of the tree. */
    var lockDirs: set<Place>
    var files: map<Path, Content>

    ghost predicate Valid()
      reads this
    {
      && (forall p :: p in lockDirs <==> TicketFile(p) in files)
      && (forall path | path in files && InLockDir(path) :: path.place in lockDirs)
      && (forall p | TicketFile(p) in files :: files[TicketFile(p)].TicketJson?)
      && (forall p | CaptureFile(p) in files :: files[CaptureFile(p)].CaptureJson?)
      && (forall p | HandoffFile(p) in files :: files[HandoffFile(p)].HandoffJson?)
      && (forall p :: HandoffDraft(p) !in files)
    }

    /** What the files say about the family at `p`. */
    ghost function FamilyAt(p: Place): Family
      requires Valid()
      reads this
    {
      Family(
        if HandoffFile(p) in files then Some(files[HandoffFile(p)].predecessor) else None,
        if TicketFile(p) !in files then None
        else Some(Pending(
                    files[TicketFile(p)].ticket,
                    MaterializedFile(p) in files,
                    if CaptureFile(p) in files then Some(files[CaptureFile(p)].capture) else None)))
    }

    constructor ()
      ensures Valid() && forall p :: FamilyAt(p) == NEW_FAMILY
    {
      lockDirs := {};
      files := map[];
    }

    // ----- file primitives -----

    /** Exclusive create: refused when the file exists. */
    method WriteExclusive(path: Path, content: Content) returns (ok: bool)
      modifies `files
      ensures ok == (path !in old(files))
      ensures files == if ok then old(files)[path := content] else old(files)
    {
      ok := path !in files;
      if ok {
        files := files[path := content];
      }
    }

    method RenameDraft(p: Place)
      requires HandoffDraft(p) in files
      modifies `files
      ensures files == old(files)[HandoffFile(p) := old(files)[HandoffDraft(p)]] - {HandoffDraft(p)}
    {
      files := files[HandoffFile(p) := files[HandoffDraft(p)]] - {HandoffDraft(p)};
    }

    method RemoveLockDir(p: Place)
      modifies `lockDirs, `files
      ensures lockDirs == old(lockDirs) - {p}
      ensures files == map path | path in old(files) && !(InLockDir(path) && path.place == p) :: old(files)[path]
    {
      lockDirs := lockDirs - {p};
      files := map path | path in files && !(InLockDir(path) && path.place == p) :: files[path];
    }

    method IsPending(ticket: Ticket) returns (pending: bool)
      requires Valid()
      ensures pending == IsPendingStream(FamilyAt(ticket.lockDir), ticket)
    {
      if TicketFile(ticket.lockDir) !in files {
        return false;
      }
      pending := files[TicketFile(ticket.lockDir)].ticket == ticket;
    }

    // ----- the calls -----

    method BeginStream(familyRef: string, predecessor: Predecessor, runtimeDir: string, uuid: string)
      returns (reply: Reply)
      requires Valid()
      modifies this
      ensures Valid()
      ensures (FamilyAt(Place(runtimeDir, familyRef)), reply) ==
                FamilyStep(old(FamilyAt(Place(runtimeDir, familyRef))), Begin(familyRef, predecessor, runtimeDir, uuid))
      ensures forall q | q != Place(runtimeDir, familyRef) :: FamilyAt(q) == old(FamilyAt(q))
    {
      if Blank(familyRef) {
        return Refused(MissingFamily);
      }
      if !ValidPredecessor(predecessor) {
        return Refused(InvalidPredecessor);
      }
      if runtimeDir == "" {
        return Refused(RuntimeUnavailable);
      }
      var lockDir := Place(runtimeDir, familyRef);
      if lockDir in lockDirs {
        return Refused(FamilyPending);
      }
      lockDirs := lockDirs + {lockDir};
      if HandoffFile(lockDir) in files {
        var expected := files[HandoffFile(lockDir)].predecessor;
        if expected != predecessor {
          RemoveLockDir(lockDir);
          assert files == old(files);
          assert lockDirs == old(lockDirs);
          return Refused(InvalidPredecessor);
        }
      }
      var ticket := Ticket("stream-" + uuid, familyRef, predecessor, lockDir);
      var _ := WriteExclusive(TicketFile(lockDir), TicketJson(ticket));
      reply := Admitted(ticket);
    }

    method MaterializeRenewable(delegate: bool, ticket: Option<Ticket>, bundleFamily: string, lifecycle: Predecessor,
                                environment: Environment)
      returns (reply: Reply)
      requires Valid()
      modifies this
      ensures Valid()
      ensures var call := Materialize(delegate, ticket, bundleFamily, lifecycle, environment);
              ticket.Some? ==> (FamilyAt(ticket.value.lockDir), reply) ==
                               FamilyStep(old(FamilyAt(ticket.value.lockDir)), call)
      ensures ticket.None? ==> reply == Refused(if delegate then StreamTicketRequired else DelegationRequired)
      ensures forall q | ticket.None? || q != ticket.value.lockDir :: FamilyAt(q) == old(FamilyAt(q))
    {
      if !delegate {
        return Refused(DelegationRequired);
      }
      if ticket.None? {
        return Refused(StreamTicketRequired);
      }
      var pending := IsPending(ticket.value);
      if !pending || ticket.value.familyRef != bundleFamily || ticket.value.predecessor != lifecycle {
        return Refused(StreamTicketRequired);
      }
      if environment.RefusedBeforeMark? {
        return Refused(EnvironmentRefused);
      }
      var marked := WriteExclusive(MaterializedFile(ticket.value.lockDir), MarkJson(ticket.value.streamOperationId));
      if !marked {
        return Refused(FamilyPending);
      }
      reply := if environment.Ready? then Materialized else MaterializationFailed;
    }

    method CaptureStream(ticket: Ticket, outcome: Outcome, uuid: string) returns (reply: Reply)
      requires Valid()
      modifies this
      ensures Valid()
      ensures (FamilyAt(ticket.lockDir), reply) ==
                FamilyStep(old(FamilyAt(ticket.lockDir)), CaptureResult(ticket, outcome, uuid))
      ensures forall q | q != ticket.lockDir :: FamilyAt(q) == old(FamilyAt(q))
    {
      var pending := IsPending(ticket);
      if !pending {
        return Refused(StaleStream);
      }
      var capture;
      if outcome.ambiguous {
        capture := Fenced(outcome.failed);
      } else if outcome.changed {
        var from := ticket.predecessor;
        capture := SuccessorSealed(outcome.failed, Predecessor(from.epoch, from.generation + 1, "bundle-" + uuid));
      } else {
        capture := UnchangedValidated(outcome.failed);
      }
      var written := WriteExclusive(CaptureFile(ticket.lockDir), CaptureJson(capture));
      reply := if written then Captured(capture) else Refused(AlreadyCaptured);
    }

    /** Write the handoff inside the lock directory, rename it into place, drop the directory. */
    method PublishHandoff(p: Place, handoff: Predecessor)
      requires Valid() && p in lockDirs
      modifies this
      ensures Valid()
      ensures FamilyAt(p) == Family(Some(handoff), None)
      ensures forall q | q != p :: FamilyAt(q) == old(FamilyAt(q))
    {
      var _ := WriteExclusive(HandoffDraft(p), HandoffJson(handoff));
      RenameDraft(p);
      RemoveLockDir(p);
      assert forall path: Path | path.place != p :: path in files <==> path in old(files);
      assert forall path | path in files && path.place != p :: files[path] == old(files)[path];
      assert TicketFile(p) !in files && files[HandoffFile(p)] == HandoffJson(handoff);
    }

    method ClearStream(ticket: Ticket, live: LiveState) returns (reply: Reply)
      requires Valid()
      modifies this
      ensures Valid()
      ensures (FamilyAt(ticket.lockDir), reply) == FamilyStep(old(FamilyAt(ticket.lockDir)), Clear(ticket, live))
      ensures forall q | q != ticket.lockDir :: FamilyAt(q) == old(FamilyAt(q))
    {
      var pending := IsPending(ticket);
      if !(pending && live.cleanupComplete && live.familyRef == ticket.familyRef
           && live.streamOperationId == ticket.streamOperationId && live.predecessor == ticket.predecessor) {
        return Cleared(false);
      }
      if CaptureFile(ticket.lockDir) !in files {
        return Cleared(false);
      }
      var capture := files[CaptureFile(ticket.lockDir)].capture;
      if capture.Fenced? {
        return Cleared(false);
      }
      if capture.SuccessorSealed? {
        if live.successor.None? || !live.successorStored || capture.successor != live.successor.value {
          return Cleared(false);
        }
      }
      var handoff := if capture.SuccessorSealed? then capture.successor else ticket.predecessor;
      PublishHandoff(ticket.lockDir, handoff);
      reply := Cleared(true);
    }
  }
}
