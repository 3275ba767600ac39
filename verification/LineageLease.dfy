/**
 Leases with a fencing epoch (apps/control-plane/src/lineage-lease.ts): one record
 per lineage, read and replaced by each call.  Every call is one atomic step; times
 are integer milliseconds.
 */
module LineageLease {
  import opened Common

  datatype Location = Local | Remote
  datatype Lease = Lease(epoch: nat, holder: string, incarnation: string, location: Location, expiresAt: int)

  datatype Call =
    | Acquire(holder: string, incarnation: string, location: Location, ttl: int, now: int)
    | Renew(holder: string, expected: nat, ttl: int, now: int)
    | Handoff(holder: string, expected: nat, toHolder: string, toIncarnation: string, toLocation: Location, ttl: int,
              now: int)
    | Release(holder: string, expected: nat)

  datatype Reply = Granted(lease: Lease) | Gone | Conflict(current: Lease) | StaleEpoch | NotHolder

  type Record = Option<Lease>

  predicate Expired(l: Lease, now: int) {
    l.expiresAt <= now
  }

  /** The check that renewing, handing off and releasing share. */
  function Refusal(l: Lease, holder: string, expected: nat): Option<Reply> {
    if l.epoch != expected then Some(StaleEpoch) else if l.holder != holder then Some(NotHolder) else None
  }

  function Answer(r: Record, c: Call): Reply {
    match c
    case Acquire(h, inc, loc, ttl, now) =>
      if r.Some? && !Expired(r.value, now) then Conflict(r.value)
      else Granted(Lease(if r.Some? then r.value.epoch else 0, h, inc, loc, now + ttl))
    case Renew(h, e, ttl, now) =>
      if r.None? then StaleEpoch else Refusal(r.value, h, e).GetOr(Granted(r.value.(expiresAt := now + ttl)))
    case Handoff(h, e, toH, toInc, toLoc, ttl, now) =>
      if r.None? then StaleEpoch
      else Refusal(r.value, h, e).GetOr(Granted(Lease(r.value.epoch + 1, toH, toInc, toLoc, now + ttl)))
    case Release(h, e) =>
      if r.None? then Gone else Refusal(r.value, h, e).GetOr(Gone)
  }

  function Step(r: Record, c: Call): Record {
    match Answer(r, c)
    case Granted(l) => Some(l)
    case Gone => None
    case _ => r
  }

  function Run(r: Record, calls: seq<Call>): Record {
    if calls == [] then r else Step(Run(r, calls[..|calls| - 1]), calls[|calls| - 1])
  }

  // ----- what a single call may do -----

  predicate Mutation(c: Call) {
    c.Renew? || c.Handoff? || c.Release?
  }

  predicate Succeeds(r: Record, c: Call) {
    Answer(r, c).Granted? || Answer(r, c).Gone?
  }

  /** A mutation that acts on an existing record. */
  predicate Accepts(r: Record, late: Call) {
    r.Some? && Mutation(late) && Succeeds(r, late)
  }

  // ----- runs -----

  /** This call deletes the record, hands it on, or takes it over after expiry. */
  predicate Deletes(r: Record, c: Call) {
    r.Some? && Step(r, c).None?
  }

  predicate HandsOff(r: Record, c: Call) {
    c.Handoff? && Succeeds(r, c)
  }

  predicate TakesOver(r: Record, c: Call) {
    c.Acquire? && r.Some? && Succeeds(r, c)
  }

  /** Successful handoffs since the record was last created. */
  function Handoffs(calls: seq<Call>): nat {
    if calls == [] then 0
    else
      var before, c := calls[..|calls| - 1], calls[|calls| - 1];
      var r := Run(None, before);
      if Step(r, c).None? then 0 else if HandsOff(r, c) then Handoffs(before) + 1 else Handoffs(before)
  }

  /** In every run the epoch counts the handoffs since the record was created. */
  lemma {:induction false} EpochCountsHandoffs(calls: seq<Call>)
    ensures Run(None, calls).Some? ==> Run(None, calls).value.epoch == Handoffs(calls)
    ensures Run(None, calls).None? ==> Handoffs(calls) == 0
  {
    if calls != [] {
      EpochCountsHandoffs(calls[..|calls| - 1]);
    }
  }

  /** In every run a renewal, handoff or release acts on a record exactly when it names
      the holder and presents the number of handoffs since the record was created;
      one that does not changes nothing. */
  lemma TokenIff(calls: seq<Call>, k: nat)
    requires k < |calls| && Mutation(calls[k])
    ensures var r, c := Run(None, calls[..k]), calls[k];
            && (Accepts(r, c) <==> r.Some? && c.holder == r.value.holder && c.expected == Handoffs(calls[..k]))
            && (!Accepts(r, c) ==> Run(None, calls[..k + 1]) == r)
  {
    hide Handoffs;
    EpochCountsHandoffs(calls[..k]);
    assert calls[..k + 1][..k] == calls[..k];
  }

  // ----- what each call leaves behind -----

  /** The reply to call `i` of a run. */
  function ReplyAt(calls: seq<Call>, i: nat): Reply
    requires i < |calls|
  {
    Answer(Run(None, calls[..i]), calls[i])
  }

  /** A lineage is acquired exactly if it has no record or the lease has run out; it then
      belongs to the caller, at its old epoch or else at 0, until `ttl` from now. */
  lemma AcquiredIff(calls: seq<Call>, i: nat)
    requires i < |calls| && calls[i].Acquire?
    ensures var r, c, after, reply := Run(None, calls[..i]), calls[i], Run(None, calls[..i + 1]), ReplyAt(calls, i);
            && (reply.Granted? <==> r.Some? ==> r.value.expiresAt <= c.now)
            && (reply.Granted? ==>
                  && after == Some(reply.lease)
                  && reply.lease.holder == c.holder && reply.lease.incarnation == c.incarnation
                  && reply.lease.location == c.location && reply.lease.expiresAt == c.now + c.ttl
                  && reply.lease.epoch == if r.Some? then r.value.epoch else 0)
            && (!reply.Granted? ==> after == r && reply == Conflict(r.value))
  {
    assert calls[..i + 1][..i] == calls[..i];
  }

  /** A renewal is granted exactly to the holder at the current epoch, and changes nothing
      but the expiry. */
  lemma RenewedIff(calls: seq<Call>, i: nat)
    requires i < |calls| && calls[i].Renew?
    ensures var r, c, after, reply := Run(None, calls[..i]), calls[i], Run(None, calls[..i + 1]), ReplyAt(calls, i);
            && (reply.Granted? <==> r.Some? && r.value.epoch == c.expected && r.value.holder == c.holder)
            && (reply.Granted? ==>
                  && after == Some(reply.lease)
                  && reply.lease.epoch == r.value.epoch && reply.lease.holder == r.value.holder
                  && reply.lease.incarnation == r.value.incarnation && reply.lease.location == r.value.location
                  && reply.lease.expiresAt == c.now + c.ttl)
            && (!reply.Granted? ==>
                  after == r && reply == if r.Some? && r.value.epoch == c.expected then NotHolder else StaleEpoch)
  {
    assert calls[..i + 1][..i] == calls[..i];
  }

  /** A handoff is granted exactly to the holder at the current epoch; the lineage then
      belongs to the named successor at the next epoch, and a renewal, handoff or release
      at that epoch is accepted from the successor and refused to everybody else. */
  lemma HandedOnIff(calls: seq<Call>, i: nat)
    requires i < |calls| && calls[i].Handoff?
    ensures var r, c, after, reply := Run(None, calls[..i]), calls[i], Run(None, calls[..i + 1]), ReplyAt(calls, i);
            && (reply.Granted? <==> r.Some? && r.value.epoch == c.expected && r.value.holder == c.holder)
            && (reply.Granted? ==>
                  && after == Some(reply.lease)
                  && reply.lease.epoch == r.value.epoch + 1 && reply.lease.holder == c.toHolder
                  && reply.lease.incarnation == c.toIncarnation && reply.lease.location == c.toLocation
                  && reply.lease.expiresAt == c.now + c.ttl
                  && forall late | Mutation(late) && late.expected == r.value.epoch + 1 ::
                       && (Accepts(after, late) <==> late.holder == c.toHolder)
                       && (late.holder != c.toHolder ==> Answer(after, late) == NotHolder))
            && (!reply.Granted? ==>
                  after == r && reply == if r.Some? && r.value.epoch == c.expected then NotHolder else StaleEpoch)
  {
    assert calls[..i + 1][..i] == calls[..i];
  }

  /** A release deletes the record exactly if it comes from the holder at the current epoch. */
  lemma ReleasedIff(calls: seq<Call>, i: nat)
    requires i < |calls| && calls[i].Release?
    ensures var r, c, after, reply := Run(None, calls[..i]), calls[i], Run(None, calls[..i + 1]), ReplyAt(calls, i);
            && (reply == Gone <==> r.Some? ==> r.value.epoch == c.expected && r.value.holder == c.holder)
            && (reply == Gone ==> after == None)
            && (reply != Gone ==>
                  after == r && reply == if r.value.epoch == c.expected then NotHolder else StaleEpoch)
  {
    assert calls[..i + 1][..i] == calls[..i];
  }

  predicate Names(calls: seq<Call>, i: nat)
    requires i < |calls|
  {
    (calls[i].Acquire? || calls[i].Handoff?) && ReplyAt(calls, i).Granted?
  }

  /** Call `i` is the last before `k` that was granted the lineage, for itself or for a
      successor, and no release has succeeded since. */
  ghost predicate NamedBy(calls: seq<Call>, k: nat, i: nat) {
    i < k <= |calls| && Names(calls, i) && forall j | i < j < k :: !Names(calls, j) && !ReplyAt(calls, j).Gone?
  }

  /** Call `i` is the last before `k` that was granted a lease, and no release has succeeded since. */
  ghost predicate DatedBy(calls: seq<Call>, k: nat, i: nat) {
    && i < k <= |calls| && ReplyAt(calls, i).Granted?
    && forall j | i < j < k :: !ReplyAt(calls, j).Granted? && !ReplyAt(calls, j).Gone?
  }

  predicate NamedIn(l: Lease, c: Call)
    requires c.Acquire? || c.Handoff?
  {
    if c.Acquire? then l.holder == c.holder && l.incarnation == c.incarnation && l.location == c.location
    else l.holder == c.toHolder && l.incarnation == c.toIncarnation && l.location == c.toLocation
  }

  lemma NothingGrantedYet(calls: seq<Call>)
    ensures forall i: nat :: !NamedBy(calls, 0, i) && !DatedBy(calls, 0, i)
  {
  }

  lemma LastGrantStep(calls: seq<Call>, k: nat, i: nat)
    requires 0 < k <= |calls|
    ensures NamedBy(calls, k, i) <==>
              (i == k - 1 && Names(calls, k - 1))
              || (NamedBy(calls, k - 1, i) && !Names(calls, k - 1) && !ReplyAt(calls, k - 1).Gone?)
    ensures DatedBy(calls, k, i) <==>
              (i == k - 1 && ReplyAt(calls, k - 1).Granted?)
              || (DatedBy(calls, k - 1, i) && !ReplyAt(calls, k - 1).Granted? && !ReplyAt(calls, k - 1).Gone?)
  {
    hide Answer;
  }

  lemma GrantLeaves(calls: seq<Call>, i: nat)
    requires i < |calls|
    ensures var r, after := Run(None, calls[..i]), Run(None, calls[..i + 1]);
            && (Names(calls, i) ==> after.Some? && NamedIn(after.value, calls[i]))
            && (ReplyAt(calls, i).Granted? ==>
                  after.Some? && !calls[i].Release? && after.value.expiresAt == calls[i].now + calls[i].ttl)
            && (ReplyAt(calls, i).Gone? ==> after == None)
            && (calls[i].Renew? && ReplyAt(calls, i).Granted? ==>
                  r.Some? && after == Some(r.value.(expiresAt := calls[i].now + calls[i].ttl)))
            && (!ReplyAt(calls, i).Granted? && !ReplyAt(calls, i).Gone? ==> after == r)
  {
    assert calls[..i + 1][..i] == calls[..i];
  }

  /** At every point of every run there is a record exactly if somebody was granted the
      lineage and no release has succeeded since; it names the last one who was, or the
      successor that one handed it to, and expires as the last granted call says. */
  lemma {:induction false} RecordNamesTheLast(calls: seq<Call>, k: nat)
    requires k <= |calls|
    ensures var r := Run(None, calls[..k]);
            && (r.Some? <==> exists i: nat :: NamedBy(calls, k, i))
            && (r.Some? <==> exists i: nat :: DatedBy(calls, k, i))
            && (forall i: nat | NamedBy(calls, k, i) :: r.Some? && NamedIn(r.value, calls[i]))
            && (forall i: nat | DatedBy(calls, k, i) :: r.Some? && r.value.expiresAt == calls[i].now + calls[i].ttl)
  {
    hide NamedBy, DatedBy, Answer;
    if k == 0 {
      NothingGrantedYet(calls);
    } else {
      var last := k - 1;
      RecordNamesTheLast(calls, last);
      assert calls[..k][..last] == calls[..last];
      forall i: nat
        ensures NamedBy(calls, k, i) <==>
                  (i == last && Names(calls, last))
                  || (NamedBy(calls, last, i) && !Names(calls, last) && !ReplyAt(calls, last).Gone?)
        ensures DatedBy(calls, k, i) <==>
                  (i == last && ReplyAt(calls, last).Granted?)
                  || (DatedBy(calls, last, i) && !ReplyAt(calls, last).Granted? && !ReplyAt(calls, last).Gone?)
      {
        LastGrantStep(calls, k, i);
      }
      GrantLeaves(calls, last);
      if Names(calls, last) {
        assert NamedBy(calls, k, last) && DatedBy(calls, k, last);
      } else if ReplyAt(calls, last).Granted? {
        assert DatedBy(calls, k, last);
        if i: nat :| NamedBy(calls, last, i) {
          assert NamedBy(calls, k, i);
        }
      } else if ReplyAt(calls, last).Gone? {
        assert forall i: nat :: !NamedBy(calls, k, i) && !DatedBy(calls, k, i);
      } else {
        assert forall i: nat :: NamedBy(calls, k, i) == NamedBy(calls, last, i);
        assert forall i: nat :: DatedBy(calls, k, i) == DatedBy(calls, last, i);
      }
    }
  }

  /** The call presents the lease's own token, or acquires once it has expired. */
  predicate Concerns(l: Lease, c: Call) {
    if c.Acquire? then Expired(l, c.now) else c.holder == l.holder && c.expected == l.epoch
  }

  /** Every call of the run is refused. */
  ghost predicate AllRefused(r: Record, calls: seq<Call>) {
    forall k | 0 <= k < |calls| :: !Succeeds(Run(r, calls[..k]), calls[k])
  }

  lemma RefusedUnlessConcerned(l: Lease, c: Call)
    ensures Succeeds(Some(l), c) <==> Concerns(l, c)
    ensures !Succeeds(Some(l), c) ==> Step(Some(l), c) == Some(l)
  {
  }

  lemma {:induction false} UnconcernedRunsChangeNothing(l: Lease, calls: seq<Call>)
    requires forall k | 0 <= k < |calls| :: !Concerns(l, calls[k])
    ensures Run(Some(l), calls) == Some(l)
  {
    hide Concerns, Step;
    if calls != [] {
      UnconcernedRunsChangeNothing(l, calls[..|calls| - 1]);
      RefusedUnlessConcerned(l, calls[|calls| - 1]);
    }
  }

  /** A lease stands, and all calls are refused, for exactly as long as nobody presents
      its token and nobody acquires at or after its expiry. */
  lemma LeaseStandsIff(l: Lease, calls: seq<Call>)
    ensures AllRefused(Some(l), calls) <==> forall k | 0 <= k < |calls| :: !Concerns(l, calls[k])
    ensures AllRefused(Some(l), calls) ==> Run(Some(l), calls) == Some(l)
  {
    hide Concerns, Succeeds;
    FirstSuccess(l, calls, |calls|);
    if forall k | 0 <= k < |calls| :: !Concerns(l, calls[k]) {
      UnconcernedRunsChangeNothing(l, calls);
    }
  }

  lemma {:induction false} FirstSuccess(l: Lease, calls: seq<Call>, n: nat)
    requires n <= |calls|
    ensures (forall k | 0 <= k < n :: !Succeeds(Run(Some(l), calls[..k]), calls[k])) <==>
            (forall k | 0 <= k < n :: !Concerns(l, calls[k]))
  {
    hide Concerns, Succeeds, Run;
    if n > 0 {
      FirstSuccess(l, calls, n - 1);
      if forall k | 0 <= k < n - 1 :: !Concerns(l, calls[k]) {
        UnconcernedRunsChangeNothing(l, calls[..n - 1]);
        RefusedUnlessConcerned(l, calls[n - 1]);
      }
    }
  }

  /** No call of the run deletes the record. */
  ghost predicate Undeleted(r: Record, calls: seq<Call>) {
    forall k | 0 <= k < |calls| :: !Deletes(Run(r, calls[..k]), calls[k])
  }

  lemma UndeletedPrefix(r: Record, calls: seq<Call>)
    requires calls != [] && Undeleted(r, calls)
    ensures Undeleted(r, calls[..|calls| - 1])
    ensures !Deletes(Run(r, calls[..|calls| - 1]), calls[|calls| - 1])
  {
    var n := |calls| - 1;
    forall k | 0 <= k < n
      ensures !Deletes(Run(r, calls[..n][..k]), calls[..n][k])
    {
      assert calls[..n][..k] == calls[..k];
    }
  }

  lemma {:induction false} EpochsGrow(l: Lease, calls: seq<Call>)
    requires Undeleted(Some(l), calls)
    ensures Run(Some(l), calls).Some? && Run(Some(l), calls).value.epoch >= l.epoch
  {
    if calls != [] {
      UndeletedPrefix(Some(l), calls);
      EpochsGrow(l, calls[..|calls| - 1]);
    }
  }

  /** Fencing: after a handoff, and until the record is deleted, no call that presents
      the epoch from before it succeeds, whoever makes it. */
  lemma HandoffFences(l: Lease, handoff: Call, calls: seq<Call>, late: Call)
    requires HandsOff(Some(l), handoff)
    requires Undeleted(Step(Some(l), handoff), calls)
    requires Mutation(late) && late.expected <= l.epoch
    ensures Answer(Run(Step(Some(l), handoff), calls), late) == StaleEpoch
  {
    EpochsGrow(Step(Some(l), handoff).value, calls);
  }

  lemma {:induction false} RunAppend(r: Record, a: seq<Call>, b: seq<Call>)
    ensures Run(r, a + b) == Run(Run(r, a), b)
  {
    if b == [] {
      assert a + b == a;
    } else {
      RunAppend(r, a, b[..|b| - 1]);
      assert (a + b)[..|a + b| - 1] == a + b[..|b| - 1];
    }
  }

  /** From no point of the run can the call be accepted again without a deletion on the way. */
  ghost predicate StaysFenced(r: Record, calls: seq<Call>, late: Call) {
    forall k: nat, more: seq<Call> | k <= |calls| && Undeleted(Run(r, calls[..k]), more) ::
      !Accepts(Run(Run(r, calls[..k]), more), late)
  }

  /** A new record that its holder hands on to itself, one call at each of the given times. */
  function WayBack(holder: string, times: seq<int>): seq<Call>
    requires times != []
  {
    var n := |times| - 1;
    if n == 0 then [Acquire(holder, "i", Local, 0, times[0])]
    else WayBack(holder, times[..n]) + [Handoff(holder, n - 1, holder, "i", Local, 0, times[n])]
  }

  lemma {:induction false} WayBackLeads(holder: string, times: seq<int>)
    requires times != []
    ensures var n := |times| - 1;
            Run(None, WayBack(holder, times)) == Some(Lease(n, holder, "i", Local, times[n]))
    ensures forall i | 0 <= i < |WayBack(holder, times)| :: !WayBack(holder, times)[i].Release?
  {
    hide Run;
    var n := |times| - 1;
    if n == 0 {
      RunOne(None, Acquire(holder, "i", Local, 0, times[0]));
    } else {
      WayBackLeads(holder, times[..n]);
      var step := Handoff(holder, n - 1, holder, "i", Local, 0, times[n]);
      RunAppend(None, WayBack(holder, times[..n]), [step]);
      RunOne(Run(None, WayBack(holder, times[..n])), step);
    }
  }

  lemma RunOne(r: Record, c: Call)
    ensures Run(r, [c]) == Step(r, c)
  {
    assert [c][..0] == [];
  }

  lemma OnlyReleaseDeletes(r: Record, calls: seq<Call>)
    requires forall i | 0 <= i < |calls| :: !calls[i].Release?
    ensures Undeleted(r, calls)
  {
  }

  /** The fence of a handoff, exactly: from no point of a run can a call with an earlier
      epoch be accepted again without a deletion on the way, if and only if the run
      itself does not delete the record.  Once it has, acquiring the lineage anew and
      handing it on often enough, at any times later on, makes the fenced call succeed,
      whoever makes it. */
  lemma FenceHoldsIff(l: Lease, handoff: Call, calls: seq<Call>, late: Call, times: seq<int>)
    requires HandsOff(Some(l), handoff)
    requires Mutation(late) && late.expected <= l.epoch && |times| == late.expected + 1
    ensures var fenced := Step(Some(l), handoff);
            && (StaysFenced(fenced, calls, late) <==> Undeleted(fenced, calls))
            && (forall k | 0 <= k < |calls| && Deletes(Run(fenced, calls[..k]), calls[k]) ::
                  Accepts(Run(Run(fenced, calls[..k + 1]), WayBack(late.holder, times)), late))
  {
    hide Step, Deletes, Accepts, Undeleted, WayBack, Run;
    var fenced := Step(Some(l), handoff);
    HandoffRaises(l, handoff);
    forall k | 0 <= k < |calls| && Deletes(Run(fenced, calls[..k]), calls[k])
      ensures Undeleted(Run(fenced, calls[..k + 1]), WayBack(late.holder, times))
      ensures Accepts(Run(Run(fenced, calls[..k + 1]), WayBack(late.holder, times)), late)
    {
      DeletionOpensTheWay(fenced, calls, k, late, times);
    }
    if Undeleted(fenced, calls) {
      forall k: nat, more: seq<Call> | k <= |calls| && Undeleted(Run(fenced, calls[..k]), more)
        ensures !Accepts(Run(Run(fenced, calls[..k]), more), late)
      {
        UndeletedTake(fenced, calls, k);
        EpochsGrow(fenced.value, calls[..k]);
        EpochsGrow(Run(fenced, calls[..k]).value, more);
        OtherEpochRefused(Run(Run(fenced, calls[..k]), more).value, late);
      }
    } else {
      var k := Deletion(fenced, calls);
      DeletionOpensTheWay(fenced, calls, k, late, times);
      var after, more := k + 1, WayBack(late.holder, times);
      assert after <= |calls| && Undeleted(Run(fenced, calls[..after]), more);
      assert Accepts(Run(Run(fenced, calls[..after]), more), late);
    }
  }

  lemma Deletion(r: Record, calls: seq<Call>) returns (k: nat)
    requires !Undeleted(r, calls)
    ensures k < |calls| && Deletes(Run(r, calls[..k]), calls[k])
  {
    hide Deletes;
    k :| 0 <= k < |calls| && Deletes(Run(r, calls[..k]), calls[k]);
  }

  lemma DeletionOpensTheWay(r: Record, calls: seq<Call>, k: nat, late: Call, times: seq<int>)
    requires k < |calls| && Deletes(Run(r, calls[..k]), calls[k])
    requires Mutation(late) && |times| == late.expected + 1
    ensures Undeleted(Run(r, calls[..k + 1]), WayBack(late.holder, times))
    ensures Accepts(Run(Run(r, calls[..k + 1]), WayBack(late.holder, times)), late)
  {
    hide Step, Deletes, Accepts, Undeleted, WayBack;
    assert calls[..k + 1][..k] == calls[..k];
    DeletedIsGone(Run(r, calls[..k]), calls[k]);
    WayBackLeads(late.holder, times);
    OnlyReleaseDeletes(None, WayBack(late.holder, times));
    OwnTokenAccepted(Run(None, WayBack(late.holder, times)).value, late);
  }

  lemma HandoffRaises(l: Lease, handoff: Call)
    requires HandsOff(Some(l), handoff)
    ensures Step(Some(l), handoff).Some? && Step(Some(l), handoff).value.epoch == l.epoch + 1
  {
  }

  lemma DeletedIsGone(r: Record, c: Call)
    requires Deletes(r, c)
    ensures Step(r, c) == None
  {
  }

  lemma OtherEpochRefused(l: Lease, late: Call)
    requires Mutation(late) && late.expected != l.epoch
    ensures !Accepts(Some(l), late)
  {
  }

  lemma OwnTokenAccepted(l: Lease, late: Call)
    requires Mutation(late) && late.expected == l.epoch && late.holder == l.holder
    ensures Accepts(Some(l), late)
  {
  }

  lemma UndeletedTake(r: Record, calls: seq<Call>, k: nat)
    requires k <= |calls| && Undeleted(r, calls)
    ensures Undeleted(r, calls[..k])
  {
    hide Deletes;
    forall i | 0 <= i < k
      ensures calls[..k][..i] == calls[..i]
    {
    }
  }

  /** Deletion is open to the holder at any time, so no fence is final: every record has
      a continuation, at any times, after which the call is accepted. */
  lemma NoFenceIsFinal(l: Lease, late: Call, times: seq<int>)
    requires Mutation(late) && |times| == late.expected + 1
    ensures Accepts(Run(Some(l), [Release(l.holder, l.epoch)] + WayBack(late.holder, times)), late)
  {
    var release := [Release(l.holder, l.epoch)];
    assert release[..0] == [];
    RunAppend(Some(l), release, WayBack(late.holder, times));
    WayBackLeads(late.holder, times);
  }

  ghost predicate NoTakeover(r: Record, calls: seq<Call>) {
    forall k | 0 <= k < |calls| :: !TakesOver(Run(r, calls[..k]), calls[k])
  }

  /** One epoch, one holder: unless somebody takes over an expired lease, the holder
      stays the same for as long as the epoch does. */
  lemma {:induction false} OneHolderPerEpoch(l: Lease, calls: seq<Call>)
    requires Undeleted(Some(l), calls) && NoTakeover(Some(l), calls)
    ensures Run(Some(l), calls).Some? && Run(Some(l), calls).value.epoch >= l.epoch
    ensures var m := Run(Some(l), calls).value;
            m.epoch == l.epoch ==> m.holder == l.holder && m.incarnation == l.incarnation && m.location == l.location
  {
    hide Step, Deletes, TakesOver, Undeleted, NoTakeover;
    if calls != [] {
      var n := |calls| - 1;
      UndeletedPrefix(Some(l), calls);
      NoTakeoverPrefix(Some(l), calls);
      OneHolderPerEpoch(l, calls[..n]);
      HolderStep(Run(Some(l), calls[..n]).value, calls[n]);
    }
  }

  lemma HolderStep(m: Lease, c: Call)
    requires !Deletes(Some(m), c) && !TakesOver(Some(m), c)
    ensures Step(Some(m), c).Some?
    ensures var next := Step(Some(m), c).value;
            && next.epoch >= m.epoch
            && (next.epoch == m.epoch ==>
                  next.holder == m.holder && next.incarnation == m.incarnation && next.location == m.location)
  {
  }

  lemma NoTakeoverPrefix(r: Record, calls: seq<Call>)
    requires calls != [] && NoTakeover(r, calls)
    ensures NoTakeover(r, calls[..|calls| - 1])
    ensures !TakesOver(Run(r, calls[..|calls| - 1]), calls[|calls| - 1])
  {
    hide TakesOver;
    var n := |calls| - 1;
    forall k | 0 <= k < n
      ensures !TakesOver(Run(r, calls[..n][..k]), calls[..n][k])
    {
      assert calls[..n][..k] == calls[..k];
    }
  }

  // ----- the store -----

  class LeaseStore {
    /** The lease files, by lineage. */
    var leases: map<string, Lease>

    constructor ()
      ensures leases == map[]
    {
      leases := map[];
    }

    ghost function RecordOf(lineage: string): Record
      reads this
    {
      if lineage in leases then Some(leases[lineage]) else None
    }

    /** The call was answered and carried out on this lineage; all others are as before. */
    twostate predicate Carried(lineage: string, c: Call, reply: Reply)
      reads this
    {
      && reply == Answer(old(RecordOf(lineage)), c)
      && RecordOf(lineage) == Step(old(RecordOf(lineage)), c)
      && forall other | other != lineage :: RecordOf(other) == old(RecordOf(other))
    }

    method AcquireLease(lineage: string, holder: string, incarnation: string, location: Location, ttl: int, now: int)
      returns (reply: Reply)
      modifies this
      ensures Carried(lineage, Acquire(holder, incarnation, location, ttl, now), reply)
    {
      if lineage in leases && !Expired(leases[lineage], now) {
        return Conflict(leases[lineage]);
      }
      var epoch := if lineage in leases then leases[lineage].epoch else 0;
      var lease := Lease(epoch, holder, incarnation, location, now + ttl);
      leases := leases[lineage := lease];
      return Granted(lease);
    }

    method RenewLease(lineage: string, holder: string, expected: nat, ttl: int, now: int) returns (reply: Reply)
      modifies this
      ensures Carried(lineage, Renew(holder, expected, ttl, now), reply)
    {
      if lineage !in leases {
        return StaleEpoch;
      }
      var current := leases[lineage];
      if current.epoch != expected {
        return StaleEpoch;
      }
      if current.holder != holder {
        return NotHolder;
      }
      var renewed := current.(expiresAt := now + ttl);
      leases := leases[lineage := renewed];
      return Granted(renewed);
    }

    method HandoffLease(lineage: string, holder: string, expected: nat, toHolder: string, toIncarnation: string,
                        toLocation: Location, ttl: int, now: int) returns (reply: Reply)
      modifies this
      ensures Carried(lineage, Handoff(holder, expected, toHolder, toIncarnation, toLocation, ttl, now), reply)
    {
      if lineage !in leases {
        return StaleEpoch;
      }
      var current := leases[lineage];
      if current.epoch != expected {
        return StaleEpoch;
      }
      if current.holder != holder {
        return NotHolder;
      }
      var next := Lease(current.epoch + 1, toHolder, toIncarnation, toLocation, now + ttl);
      leases := leases[lineage := next];
      return Granted(next);
    }

    method ReleaseLease(lineage: string, holder: string, expected: nat) returns (reply: Reply)
      modifies this
      ensures Carried(lineage, Release(holder, expected), reply)
    {
      if lineage !in leases {
        return Gone;
      }
      var current := leases[lineage];
      if current.epoch != expected {
        return StaleEpoch;
      }
      if current.holder != holder {
        return NotHolder;
      }
      leases := leases - {lineage};
      return Gone;
    }
  }
}
