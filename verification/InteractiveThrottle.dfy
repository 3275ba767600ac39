/**
 Resuming rate-limited interactive sessions
 (packages/h2a-runtime/src/interactive-throttle.ts, `planInteractiveResume`) and the
 bookkeeping that the executor feeds back from pass to pass.  Throttle detection,
 the jittered delays and the probes of the panes are inputs; times are integer
 milliseconds.
 */
module InteractiveThrottle {
  import opened Common
  import opened Sorting

  const THROTTLE_MAX_ATTEMPTS := 6

  /** `startedAt` is missing when it cannot be read as a time. */
  datatype Session = Session(name: string, tool: string, startedAt: Option<int>)
  datatype Info = Info(attempts: nat, firstAt: int, nextRetryAt: int, signature: Option<string>)
  datatype Verdict = Clear | Limited(signature: Option<string>)

  type Ledger = map<string, Info>

  datatype Probe = Probe(
    now: int, detect: Session -> Verdict, attached: map<string, nat>, stalled: map<string, bool>,
    cap: int, maxAttempts: nat, delay: string -> nat)

  datatype Seen = Seen(session: Session, signature: Option<string>, attached: bool, stalled: bool)
  datatype Resume = Resume(session: Session, signature: Option<string>, attempt: nat, next: Info)
  datatype Advice = Attached | StillActive | BackingOff | GaveUp | Deferred | Resuming
  datatype Advisory = Advisory(name: string, advice: Advice)
  datatype Plan = Plan(throttled: seq<Seen>, toResume: seq<Resume>, advisories: seq<Advisory>)

  // ----- the guards, in the order in which they are asked -----

  function PriorOf(state: Ledger, s: Session): Option<Info> {
    if s.name in state then Some(state[s.name]) else None
  }

  function PriorAttempts(prior: Option<Info>): nat {
    if prior.Some? then prior.value.attempts else 0
  }

  predicate Due(prior: Option<Info>, now: int) {
    prior.None? || now >= prior.value.nextRetryAt
  }

  predicate Throttled(p: Probe, s: Session) {
    p.detect(s).Limited?
  }

  /** Unknown counts as attached. */
  predicate Detached(p: Probe, s: Session) {
    s.name in p.attached && p.attached[s.name] == 0
  }

  /** Unknown counts as still working. */
  predicate Stalled(p: Probe, s: Session) {
    s.name in p.stalled && p.stalled[s.name]
  }

  /** Why a throttled session is left alone, if it is. */
  function Skip(p: Probe, state: Ledger, s: Session): Option<Advice> {
    if !Detached(p, s) then Some(Attached)
    else if !Stalled(p, s) then Some(StillActive)
    else if !Due(PriorOf(state, s), p.now) then Some(BackingOff)
    else if PriorAttempts(PriorOf(state, s)) >= p.maxAttempts then Some(GaveUp)
    else None
  }

  /** A throttled session that every guard lets through. */
  predicate Eligible(p: Probe, state: Ledger, s: Session) {
    Throttled(p, s) && Skip(p, state, s).None?
  }

  // ----- the order of the candidates -----

  function ThrottledSince(p: Probe, state: Ledger, s: Session): int {
    if s.name in state then state[s.name].firstAt else p.now
  }

  /** An unreadable start sorts last. */
  predicate StartLe(a: Option<int>, b: Option<int>) {
    b.None? || (a.Some? && a.value <= b.value)
  }

  predicate OlderThrottle(p: Probe, state: Ledger, a: Session, b: Session) {
    var x, y := ThrottledSince(p, state, a), ThrottledSince(p, state, b);
    || x < y
    || (x == y && a.startedAt != b.startedAt && StartLe(a.startedAt, b.startedAt))
    || (x == y && a.startedAt == b.startedAt && StringLe(a.name, b.name))
  }

  function Candidates(p: Probe, state: Ledger, sessions: seq<Session>): seq<Session> {
    Sort((a, b) => OlderThrottle(p, state, a, b), Filter(s => Eligible(p, state, s), sessions))
  }

  function Limit(cap: int, n: nat): nat {
    Min(n, Max(0, cap))
  }

  // ----- the plan -----

  function SeenOf(p: Probe, s: Session): Seen
    requires Throttled(p, s)
  {
    Seen(s, p.detect(s).signature, !Detached(p, s), Stalled(p, s))
  }

  function AllSeen(p: Probe, sessions: seq<Session>): seq<Seen> {
    if sessions == [] then []
    else
      var s := sessions[|sessions| - 1];
      AllSeen(p, sessions[..|sessions| - 1]) + if Throttled(p, s) then [SeenOf(p, s)] else []
  }

  function Skips(p: Probe, state: Ledger, sessions: seq<Session>): seq<Advisory> {
    if sessions == [] then []
    else
      var s := sessions[|sessions| - 1];
      Skips(p, state, sessions[..|sessions| - 1]) +
      if Throttled(p, s) && Skip(p, state, s).Some? then [Advisory(s.name, Skip(p, state, s).value)] else []
  }

  function ResumeOf(p: Probe, state: Ledger, s: Session): Resume {
    var prior := PriorOf(state, s);
    var attempts := PriorAttempts(prior);
    var signature := match p.detect(s) case Limited(sig) => sig case Clear => None;
    Resume(s, signature, attempts,
           Info(attempts + 1, if prior.Some? then prior.value.firstAt else p.now, p.now + p.delay(s.name), signature))
  }

  function Resumes(p: Probe, state: Ledger, chosen: seq<Session>): seq<Resume> {
    if chosen == [] then []
    else Resumes(p, state, chosen[..|chosen| - 1]) + [ResumeOf(p, state, chosen[|chosen| - 1])]
  }

  /** The first candidates are resumed, the others told that the cap is reached. */
  function Decisions(candidates: seq<Session>, limit: nat): seq<Advisory> {
    if candidates == [] then []
    else
      Decisions(candidates[..|candidates| - 1], limit) +
      [Advisory(candidates[|candidates| - 1].name, if |candidates| <= limit then Resuming else Deferred)]
  }

  function PlanOf(p: Probe, state: Ledger, sessions: seq<Session>): Plan {
    var candidates := Candidates(p, state, sessions);
    Plan(AllSeen(p, sessions),
         Resumes(p, state, candidates[..Limit(p.cap, |candidates|)]),
         Skips(p, state, sessions) + Decisions(candidates, Max(0, p.cap)))
  }

  /** The first loop: classify every session and collect the candidates. */
  method Classify(p: Probe, state: Ledger, sessions: seq<Session>)
    returns (throttled: seq<Seen>, advisories: seq<Advisory>, candidates: seq<Session>)
    ensures throttled == AllSeen(p, sessions) && advisories == Skips(p, state, sessions)
    ensures candidates == Filter((s: Session) => Eligible(p, state, s), sessions)
  {
    hide Skip, Throttled, SeenOf;
    throttled, advisories, candidates := [], [], [];
    ghost var eligible := (s: Session) => Eligible(p, state, s);
    for i := 0 to |sessions|
      invariant throttled == AllSeen(p, sessions[..i])
      invariant advisories == Skips(p, state, sessions[..i])
      invariant candidates == Filter(eligible, sessions[..i])
    {
      assert sessions[..i + 1][..i] == sessions[..i];
      var s := sessions[i];
      if !Throttled(p, s) {
        continue;
      }
      throttled := throttled + [SeenOf(p, s)];
      var why := Guard(p, state, s);
      if why.Some? {
        advisories := advisories + [Advisory(s.name, why.value)];
        continue;
      }
      candidates := candidates + [s];
    }
    assert sessions[..|sessions|] == sessions;
  }

  /** The second loop: nudge as many as the cap allows, defer the rest. */
  method Choose(p: Probe, state: Ledger, queue: seq<Session>) returns (toResume: seq<Resume>, decisions: seq<Advisory>)
    ensures toResume == Resumes(p, state, queue[..Limit(p.cap, |queue|)])
    ensures decisions == Decisions(queue, Max(0, p.cap))
  {
    hide ResumeOf;
    var limit := if p.cap > 0 then p.cap else 0;
    toResume, decisions := [], [];
    for i := 0 to |queue|
      invariant |toResume| == Min(i, limit)
      invariant toResume == Resumes(p, state, queue[..Min(i, limit)])
      invariant decisions == Decisions(queue[..i], limit)
    {
      assert queue[..i + 1][..i] == queue[..i];
      if |toResume| >= limit {
        decisions := decisions + [Advisory(queue[i].name, Deferred)];
        continue;
      }
      toResume := toResume + [ResumeOf(p, state, queue[i])];
      decisions := decisions + [Advisory(queue[i].name, Resuming)];
    }
    assert queue[..|queue|] == queue;
  }

  method PlanInteractiveResume(p: Probe, state: Ledger, sessions: seq<Session>) returns (plan: Plan)
    ensures plan == PlanOf(p, state, sessions)
  {
    hide OlderThrottle, Eligible, AllSeen, Skips, Decisions, Resumes;
    var throttled, skips, candidates := Classify(p, state, sessions);
    var queue := Sort((a, b) => OlderThrottle(p, state, a, b), candidates);
    SameCandidates(p, state, sessions, candidates);
    var toResume, decisions := Choose(p, state, queue);
    return Plan(throttled, toResume, skips + decisions);
  }

  method Guard(p: Probe, state: Ledger, s: Session) returns (why: Option<Advice>)
    ensures why == Skip(p, state, s)
  {
    if !Detached(p, s) {
      return Some(Attached);
    }
    if !Stalled(p, s) {
      return Some(StillActive);
    }
    var prior := PriorOf(state, s);
    if !Due(prior, p.now) {
      return Some(BackingOff);
    }
    if PriorAttempts(prior) >= p.maxAttempts {
      return Some(GaveUp);
    }
    return None;
  }

  lemma SameCandidates(p: Probe, state: Ledger, sessions: seq<Session>, candidates: seq<Session>)
    requires candidates == Filter((s: Session) => Eligible(p, state, s), sessions)
    ensures Sort((a, b) => OlderThrottle(p, state, a, b), candidates) == Candidates(p, state, sessions)
  {
  }

  // ----- what one pass does -----

  lemma StartOrder(a: Option<int>, b: Option<int>, c: Option<int>)
    ensures StartLe(a, b) || StartLe(b, a)
    ensures StartLe(a, b) && StartLe(b, a) ==> a == b
    ensures StartLe(a, b) && StartLe(b, c) ==> StartLe(a, c)
  {
  }

  lemma CandidateOrder(p: Probe, state: Ledger)
    ensures TotalPreorder((a, b) => OlderThrottle(p, state, a, b))
  {
    hide StringLe, StartLe, ThrottledSince;
    StringOrder();
    forall a, b, c: Session
      ensures OlderThrottle(p, state, a, b) || OlderThrottle(p, state, b, a)
      ensures OlderThrottle(p, state, a, b) && OlderThrottle(p, state, b, c) ==> OlderThrottle(p, state, a, c)
    {
      StartOrder(a.startedAt, b.startedAt, c.startedAt);
      StartOrder(c.startedAt, b.startedAt, a.startedAt);
      StartOrder(a.startedAt, c.startedAt, b.startedAt);
    }
  }

  lemma {:induction false} ResumesAt(p: Probe, state: Ledger, chosen: seq<Session>)
    ensures |Resumes(p, state, chosen)| == |chosen|
    ensures forall i | 0 <= i < |chosen| :: Resumes(p, state, chosen)[i] == ResumeOf(p, state, chosen[i])
  {
    hide ResumeOf;
    if chosen != [] {
      ResumesAt(p, state, chosen[..|chosen| - 1]);
    }
  }

  /** Every planned nudge is one of a session that may be nudged. */
  lemma EligibleMeans(p: Probe, state: Ledger, sessions: seq<Session>, r: Resume)
    requires r in PlanOf(p, state, sessions).toResume
    ensures r.session in sessions && MayNudge(p, state, r.session) && NudgeOf(p, state, r.session, r)
  {
    hide OlderThrottle, Eligible, ResumeOf, MayNudge, NudgeOf;
    var older := (a: Session, b: Session) => OlderThrottle(p, state, a, b);
    var eligible := (s: Session) => Eligible(p, state, s);
    var queue := Candidates(p, state, sessions);
    var chosen := queue[..Limit(p.cap, |queue|)];
    ResumesAt(p, state, chosen);
    var i :| 0 <= i < |chosen| && r == ResumeOf(p, state, chosen[i]);
    assert chosen[i] == queue[i] && queue[i] in queue;
    SortKeepsMembers(older, Filter(eligible, sessions), queue[i]);
    FilterMembers(eligible, sessions);
    ResumeNames(p, state, queue[i]);
    EligibleIs(p, state, queue[i]);
    ResumeIsNudge(p, state, queue[i]);
  }

  lemma ResumeIsNudge(p: Probe, state: Ledger, s: Session)
    requires MayNudge(p, state, s)
    ensures NudgeOf(p, state, s, ResumeOf(p, state, s))
  {
  }

  lemma ResumeNames(p: Probe, state: Ledger, s: Session)
    ensures ResumeOf(p, state, s).session == s
  {
  }

  /** Throttled, known to be detached and to have stalled, past its retry time and not out of attempts. */
  ghost predicate MayNudge(p: Probe, state: Ledger, s: Session) {
    && p.detect(s).Limited?
    && s.name in p.attached && p.attached[s.name] == 0
    && s.name in p.stalled && p.stalled[s.name]
    && (if s.name in state then p.now >= state[s.name].nextRetryAt && state[s.name].attempts < p.maxAttempts
        else 0 < p.maxAttempts)
  }

  lemma EligibleIs(p: Probe, state: Ledger, s: Session)
    ensures Eligible(p, state, s) <==> MayNudge(p, state, s)
  {
  }

  /** `a` has been throttled for at least as long as `b`; a session not on record counts
      from now.  Of two from one moment the older session goes first, one of unknown age
      last, and of two of one age the one with the smaller name. */
  ghost predicate NoShorter(p: Probe, state: Ledger, a: Session, b: Session) {
    var x := if a.name in state then state[a.name].firstAt else p.now;
    var y := if b.name in state then state[b.name].firstAt else p.now;
    && x <= y
    && (x == y ==> b.startedAt.None? || (a.startedAt.Some? && a.startedAt.value <= b.startedAt.value))
    && (x == y && a.startedAt == b.startedAt ==> StringLe(a.name, b.name))
  }

  lemma OlderIsNoShorter(p: Probe, state: Ledger, a: Session, b: Session)
    ensures OlderThrottle(p, state, a, b) <==> NoShorter(p, state, a, b)
  {
    hide StringLe;
  }

  /** A nudge counts one more attempt, dates the throttle from the first one on record or
      from now, and sets the next one off by the drawn delay. */
  ghost predicate NudgeOf(p: Probe, state: Ledger, s: Session, r: Resume) {
    && r.session == s && p.detect(s).Limited? && r.signature == p.detect(s).signature
    && r.attempt == (if s.name in state then state[s.name].attempts else 0)
    && r.next.attempts == r.attempt + 1
    && r.next.firstAt == (if s.name in state then state[s.name].firstAt else p.now)
    && r.next.nextRetryAt == p.now + p.delay(s.name) && r.next.signature == r.signature
  }

  /** The sessions that may be nudged, longest throttled first. */
  ghost predicate InTurn(p: Probe, state: Ledger, sessions: seq<Session>, queue: seq<Session>) {
    && (forall s :: multiset(queue)[s] == if MayNudge(p, state, s) then multiset(sessions)[s] else 0)
    && (forall i, k | 0 <= i < k < |queue| :: NoShorter(p, state, queue[i], queue[k]))
  }

  lemma {:induction false} EligibleCounts(p: Probe, state: Ledger, sessions: seq<Session>, s: Session)
    ensures multiset(Filter((x: Session) => Eligible(p, state, x), sessions))[s] ==
              if MayNudge(p, state, s) then multiset(sessions)[s] else 0
  {
    hide Eligible, MayNudge;
    if sessions != [] {
      var n := |sessions| - 1;
      EligibleCounts(p, state, sessions[..n], s);
      EligibleIs(p, state, sessions[n]);
      assert sessions == sessions[..n] + [sessions[n]];
    }
  }

  lemma CandidatesInTurn(p: Probe, state: Ledger, sessions: seq<Session>)
    ensures InTurn(p, state, sessions, Candidates(p, state, sessions))
  {
    hide OlderThrottle, Eligible, NoShorter, MayNudge;
    var older := (a: Session, b: Session) => OlderThrottle(p, state, a, b);
    CandidateOrder(p, state);
    SortFacts(older, Filter((s: Session) => Eligible(p, state, s), sessions));
    var queue := Candidates(p, state, sessions);
    forall i, k | 0 <= i < k < |queue|
      ensures NoShorter(p, state, queue[i], queue[k])
    {
      assert older(queue[i], queue[k]);
      OlderIsNoShorter(p, state, queue[i], queue[k]);
    }
    forall s
      ensures multiset(queue)[s] == if MayNudge(p, state, s) then multiset(sessions)[s] else 0
    {
      EligibleCounts(p, state, sessions, s);
    }
  }

  /** Exactly the first min(cap, all) of the sessions that may be nudged are nudged, in
      their turn: nobody left out has been throttled for longer. */
  lemma NudgesOldestFirst(p: Probe, state: Ledger, sessions: seq<Session>)
    ensures exists queue ::
              && InTurn(p, state, sessions, queue)
              && var resumed := PlanOf(p, state, sessions).toResume;
                 && |resumed| == Min(|queue|, Max(0, p.cap)) && |resumed| <= |queue|
                 && forall i | 0 <= i < |resumed| :: NudgeOf(p, state, queue[i], resumed[i])
  {
    hide Candidates, ResumeOf, InTurn, NudgeOf;
    var queue := Candidates(p, state, sessions);
    CandidatesInTurn(p, state, sessions);
    ResumesAt(p, state, queue[..Limit(p.cap, |queue|)]);
    var resumed := PlanOf(p, state, sessions).toResume;
    forall i | 0 <= i < |resumed|
      ensures NudgeOf(p, state, queue[i], resumed[i])
    {
      assert resumed[i] in resumed && resumed[i] == ResumeOf(p, state, queue[i]);
      EligibleMeans(p, state, sessions, resumed[i]);
      ResumeNames(p, state, queue[i]);
    }
  }

  // ----- names in a pass -----

  function NamesOf(sessions: seq<Session>): seq<string> {
    if sessions == [] then [] else NamesOf(sessions[..|sessions| - 1]) + [sessions[|sessions| - 1].name]
  }

  function AdvisedNames(as_: seq<Advisory>): seq<string> {
    if as_ == [] then [] else AdvisedNames(as_[..|as_| - 1]) + [as_[|as_| - 1].name]
  }

  lemma {:induction false} AdvisedConcat(a: seq<Advisory>, b: seq<Advisory>)
    ensures AdvisedNames(a + b) == AdvisedNames(a) + AdvisedNames(b)
  {
    if b == [] {
      assert a + b == a;
    } else {
      AdvisedConcat(a, b[..|b| - 1]);
      assert (a + b)[..|a + b| - 1] == a + b[..|b| - 1];
    }
  }

  lemma {:induction false} DecisionsName(candidates: seq<Session>, limit: nat)
    ensures AdvisedNames(Decisions(candidates, limit)) == NamesOf(candidates)
  {
    if candidates != [] {
      DecisionsName(candidates[..|candidates| - 1], limit);
      var last := Advisory(candidates[|candidates| - 1].name, if |candidates| <= limit then Resuming else Deferred);
      AdvisedConcat(Decisions(candidates[..|candidates| - 1], limit), [last]);
      assert AdvisedNames([last]) == [last.name] by {
        assert [last][..0] == [];
      }
    }
  }

  lemma {:induction false} SkipsAndEligible(p: Probe, state: Ledger, sessions: seq<Session>)
    ensures multiset(AdvisedNames(Skips(p, state, sessions))) +
            multiset(NamesOf(Filter((s: Session) => Eligible(p, state, s), sessions))) ==
            multiset(NamesOf(Filter((s: Session) => Throttled(p, s), sessions)))
  {
    hide Skip, Throttled;
    if sessions != [] {
      var rest, s := sessions[..|sessions| - 1], sessions[|sessions| - 1];
      SkipsAndEligible(p, state, rest);
      var eligible := (s: Session) => Eligible(p, state, s);
      var throttled := (s: Session) => Throttled(p, s);
      NamesStep(eligible, sessions);
      NamesStep(throttled, sessions);
      SkipsStep(p, state, sessions);
    }
  }

  lemma NamesStep(q: Session -> bool, sessions: seq<Session>)
    requires sessions != []
    ensures var rest, s := sessions[..|sessions| - 1], sessions[|sessions| - 1];
            NamesOf(Filter(q, sessions)) == NamesOf(Filter(q, rest)) + if q(s) then [s.name] else []
  {
    var rest, s := sessions[..|sessions| - 1], sessions[|sessions| - 1];
    var f := Filter(q, rest);
    assert (f + [s])[..|f|] == f;
    assert f + [] == f;
  }

  lemma SkipsStep(p: Probe, state: Ledger, sessions: seq<Session>)
    requires sessions != []
    ensures var rest, s := sessions[..|sessions| - 1], sessions[|sessions| - 1];
            AdvisedNames(Skips(p, state, sessions)) ==
            AdvisedNames(Skips(p, state, rest)) +
            if Throttled(p, s) && Skip(p, state, s).Some? then [s.name] else []
  {
    hide Skip, Throttled;
    var rest, s := sessions[..|sessions| - 1], sessions[|sessions| - 1];
    var f := Skips(p, state, rest);
    assert f + [] == f;
    if Throttled(p, s) && Skip(p, state, s).Some? {
      var a := Advisory(s.name, Skip(p, state, s).value);
      assert (f + [a])[..|f|] == f;
    }
  }

  lemma {:induction false} NamesUnderInsert(le: (Session, Session) -> bool, x: Session, s: seq<Session>)
    ensures multiset(NamesOf(Insert(le, x, s))) == multiset{x.name} + multiset(NamesOf(s))
  {
    if s == [] || le(x, s[0]) {
      NamesCons(x, s);
    } else {
      NamesUnderInsert(le, x, s[1..]);
      NamesCons(s[0], Insert(le, x, s[1..]));
      NamesCons(s[0], s[1..]);
      assert [s[0]] + s[1..] == s;
    }
  }

  lemma {:induction false} NamesCons(x: Session, s: seq<Session>)
    ensures NamesOf([x] + s) == [x.name] + NamesOf(s)
  {
    if s == [] {
      assert [x] + s == [x] && [x][..0] == [];
    } else {
      NamesCons(x, s[..|s| - 1]);
      assert ([x] + s)[..|s|] == [x] + s[..|s| - 1];
    }
  }

  lemma {:induction false} NamesUnderSort(le: (Session, Session) -> bool, s: seq<Session>)
    ensures multiset(NamesOf(Sort(le, s))) == multiset(NamesOf(s))
  {
    if s != [] {
      NamesUnderSort(le, s[1..]);
      NamesUnderInsert(le, s[0], Sort(le, s[1..]));
      NamesCons(s[0], s[1..]);
      assert [s[0]] + s[1..] == s;
    }
  }

  /** Every throttled session gets exactly one advisory, and no other session gets any. */
  lemma OneAdvisoryEach(p: Probe, state: Ledger, sessions: seq<Session>)
    ensures multiset(AdvisedNames(PlanOf(p, state, sessions).advisories)) ==
            multiset(NamesOf(Filter((s: Session) => Throttled(p, s), sessions)))
  {
    hide OlderThrottle, Eligible, Throttled;
    var queue := Candidates(p, state, sessions);
    AdvisedConcat(Skips(p, state, sessions), Decisions(queue, Max(0, p.cap)));
    DecisionsName(queue, Max(0, p.cap));
    NamesUnderSort((a: Session, b: Session) => OlderThrottle(p, state, a, b),
                   Filter((s: Session) => Eligible(p, state, s), sessions));
    SkipsAndEligible(p, state, sessions);
  }

  lemma {:induction false} FilterNames(q: Session -> bool, sessions: seq<Session>)
    ensures multiset(NamesOf(Filter(q, sessions))) <= multiset(NamesOf(sessions))
  {
    if sessions != [] {
      FilterNames(q, sessions[..|sessions| - 1]);
      NamesStep(q, sessions);
    }
  }

  lemma {:induction false} NamesAt(sessions: seq<Session>)
    ensures |NamesOf(sessions)| == |sessions|
            && forall i | 0 <= i < |sessions| :: NamesOf(sessions)[i] == sessions[i].name
  {
    if sessions != [] {
      NamesAt(sessions[..|sessions| - 1]);
    }
  }

  lemma NoDuplicatesBelow(small: seq<string>, big: seq<string>)
    requires NoDuplicates(big) && multiset(small) <= multiset(big)
    ensures NoDuplicates(small)
  {
    NoDuplicatesMultiset(big);
    forall i, k | 0 <= i < k < |small|
      ensures small[i] != small[k]
    {
      assert small == small[..i] + [small[i]] + small[i + 1..k] + [small[k]] + small[k + 1..];
      assert multiset(small)[small[i]] <= 1;
    }
  }

  /** Session names being unique, a pass nudges no session twice. */
  lemma OneNudgePerPass(p: Probe, state: Ledger, sessions: seq<Session>)
    requires NoDuplicates(NamesOf(sessions))
    ensures var resumed := PlanOf(p, state, sessions).toResume;
            forall i, k | 0 <= i < k < |resumed| :: resumed[i].session.name != resumed[k].session.name
  {
    hide OlderThrottle, Eligible, ResumeOf, NamesOf, Filter, Sort, Skips, Decisions, AllSeen;
    var queue := Candidates(p, state, sessions);
    var eligible := (s: Session) => Eligible(p, state, s);
    FilterNames(eligible, sessions);
    NamesUnderSort((a: Session, b: Session) => OlderThrottle(p, state, a, b), Filter(eligible, sessions));
    NoDuplicatesBelow(NamesOf(queue), NamesOf(sessions));
    NamesAt(queue);
    var chosen := queue[..Limit(p.cap, |queue|)];
    ResumesAt(p, state, chosen);
    forall i | 0 <= i < |chosen|
      ensures ResumeOf(p, state, chosen[i]).session == queue[i]
    {
      ResumeNames(p, state, queue[i]);
    }
    assert forall i, k | 0 <= i < k < |queue| :: NamesOf(queue)[i] != NamesOf(queue)[k];
  }

  // ----- which advice -----

  /** What the advice says of the session: somebody may be attached; it may still be
      working; its retry time is to come; it is out of attempts; or it may be nudged. */
  ghost predicate AdviceFits(p: Probe, state: Ledger, s: Session, advice: Advice) {
    var detached := s.name in p.attached && p.attached[s.name] == 0;
    var stalled := s.name in p.stalled && p.stalled[s.name];
    var early := s.name in state && p.now < state[s.name].nextRetryAt;
    p.detect(s).Limited? &&
    match advice
    case Attached => !detached
    case StillActive => detached && !stalled
    case BackingOff => detached && stalled && early
    case GaveUp => detached && stalled && !early && !MayNudge(p, state, s)
    case Deferred => MayNudge(p, state, s)
    case Resuming => MayNudge(p, state, s)
  }

  lemma {:induction false} SkipsFit(p: Probe, state: Ledger, sessions: seq<Session>, a: Advisory)
    requires a in Skips(p, state, sessions)
    ensures exists s :: s in sessions && s.name == a.name && AdviceFits(p, state, s, a.advice)
                        && a.advice !in {Resuming, Deferred}
  {
    hide AdviceFits, Skip, Throttled;
    var n := |sessions| - 1;
    assert sessions == sessions[..n] + [sessions[n]];
    if a in Skips(p, state, sessions[..n]) {
      SkipsFit(p, state, sessions[..n], a);
    } else {
      SkipFits(p, state, sessions[n]);
    }
  }

  lemma SkipFits(p: Probe, state: Ledger, s: Session)
    requires Throttled(p, s) && Skip(p, state, s).Some?
    ensures AdviceFits(p, state, s, Skip(p, state, s).value) && Skip(p, state, s).value !in {Resuming, Deferred}
  {
  }

  lemma {:induction false} DecisionsAre(candidates: seq<Session>, limit: nat, a: Advisory)
    ensures a in Decisions(candidates, limit) <==>
              exists i | 0 <= i < |candidates| ::
                candidates[i].name == a.name && a.advice == if i < limit then Resuming else Deferred
  {
    if candidates != [] {
      var n := |candidates| - 1;
      DecisionsAre(candidates[..n], limit, a);
      forall i | 0 <= i < n
        ensures candidates[..n][i] == candidates[i]
      {
      }
    }
  }

  /** Every advisory fits the session that it names, and exactly the sessions that are
      nudged are told so. */
  lemma AdvisoriesFit(p: Probe, state: Ledger, sessions: seq<Session>, a: Advisory)
    ensures a in PlanOf(p, state, sessions).advisories ==>
              exists s :: s in sessions && s.name == a.name && AdviceFits(p, state, s, a.advice)
    ensures a.advice == Resuming ==>
              (a in PlanOf(p, state, sessions).advisories <==>
               exists r :: r in PlanOf(p, state, sessions).toResume && r.session.name == a.name)
  {
    hide OlderThrottle, Eligible, ResumeOf, AdviceFits, MayNudge, Skips, Sort, Filter;
    var queue, limit := Candidates(p, state, sessions), Max(0, p.cap);
    DecisionsAre(queue, limit, a);
    if a in Skips(p, state, sessions) {
      SkipsFit(p, state, sessions, a);
    }
    forall i | 0 <= i < |queue|
      ensures queue[i] in sessions && MayNudge(p, state, queue[i])
    {
      CandidatesMayBeNudged(p, state, sessions, i);
    }
    forall s | MayNudge(p, state, s)
      ensures AdviceFits(p, state, s, Resuming) && AdviceFits(p, state, s, Deferred)
    {
      NudgeAdviceFits(p, state, s);
    }
    var chosen := queue[..Limit(p.cap, |queue|)];
    ResumesAt(p, state, chosen);
    forall i | 0 <= i < |chosen|
      ensures Resumes(p, state, chosen)[i].session == queue[i]
    {
      ResumeNames(p, state, queue[i]);
    }
    if a.advice == Resuming && a in Decisions(queue, limit) {
      var i :| 0 <= i < |queue| && queue[i].name == a.name && i < limit;
      assert Resumes(p, state, chosen)[i] in PlanOf(p, state, sessions).toResume;
    }
  }

  lemma CandidatesMayBeNudged(p: Probe, state: Ledger, sessions: seq<Session>, i: nat)
    requires i < |Candidates(p, state, sessions)|
    ensures var s := Candidates(p, state, sessions)[i]; s in sessions && MayNudge(p, state, s)
  {
    hide OlderThrottle, Eligible, MayNudge;
    var eligible := (s: Session) => Eligible(p, state, s);
    var s := Candidates(p, state, sessions)[i];
    SortKeepsMembers((a: Session, b: Session) => OlderThrottle(p, state, a, b), Filter(eligible, sessions), s);
    FilterMembers(eligible, sessions);
    EligibleIs(p, state, s);
  }

  lemma NudgeAdviceFits(p: Probe, state: Ledger, s: Session)
    requires MayNudge(p, state, s)
    ensures AdviceFits(p, state, s, Resuming) && AdviceFits(p, state, s, Deferred)
  {
  }

  predicate SeenAs(p: Probe, sessions: seq<Session>, seen: Seen) {
    && seen.session in sessions && p.detect(seen.session).Limited?
    && seen.signature == p.detect(seen.session).signature
    && seen.attached == !(seen.session.name in p.attached && p.attached[seen.session.name] == 0)
    && seen.stalled == (seen.session.name in p.stalled && p.stalled[seen.session.name])
  }

  lemma {:induction false} SeenAre(p: Probe, sessions: seq<Session>, seen: Seen)
    ensures seen in AllSeen(p, sessions) <==> SeenAs(p, sessions, seen)
  {
    if sessions != [] {
      SeenAre(p, sessions[..|sessions| - 1], seen);
      assert sessions == sessions[..|sessions| - 1] + [sessions[|sessions| - 1]];
    }
  }

  /** The list of throttled sessions tells of each its signature, and whether it may be
      attached or has stalled. */
  lemma ThrottledAreSeen(p: Probe, state: Ledger, sessions: seq<Session>, seen: Seen)
    ensures seen in PlanOf(p, state, sessions).throttled <==> SeenAs(p, sessions, seen)
  {
    SeenAre(p, sessions, seen);
  }

  // ----- runs -----

  /** One pass: what was probed, the sessions of the moment and which of the planned
      nudges went through. */
  datatype Pass = Pass(probe: Probe, sessions: seq<Session>, sent: string -> bool)

  function Feed(state: Ledger, resumes: seq<Resume>, sent: string -> bool): Ledger {
    if resumes == [] then state
    else
      var r := resumes[|resumes| - 1];
      var before := Feed(state, resumes[..|resumes| - 1], sent);
      if sent(r.session.name) then before[r.session.name := r.next] else before
  }

  function After(state: Ledger, pass: Pass): Ledger {
    Feed(state, PlanOf(pass.probe, state, pass.sessions).toResume, pass.sent)
  }

  function Run(state: Ledger, passes: seq<Pass>): Ledger {
    if passes == [] then state else After(Run(state, passes[..|passes| - 1]), passes[|passes| - 1])
  }

  /** The pass nudges the session of this name. */
  ghost predicate Nudged(state: Ledger, pass: Pass, name: string) {
    pass.sent(name) && exists r :: r in PlanOf(pass.probe, state, pass.sessions).toResume && r.session.name == name
  }

  ghost function Nudges(state: Ledger, passes: seq<Pass>, name: string): nat {
    if passes == [] then 0
    else
      var before := passes[..|passes| - 1];
      Nudges(state, before, name) + if Nudged(Run(state, before), passes[|passes| - 1], name) then 1 else 0
  }

  function AttemptsOf(state: Ledger, name: string): nat {
    if name in state then state[name].attempts else 0
  }

  lemma {:induction false} FeedAt(state: Ledger, resumes: seq<Resume>, sent: string -> bool, name: string)
    ensures var after := Feed(state, resumes, sent);
            if sent(name) && exists r :: r in resumes && r.session.name == name
            then name in after && exists r :: r in resumes && r.session.name == name && after[name] == r.next
            else (name in after <==> name in state) && (name in after ==> after[name] == state[name])
  {
    if resumes != [] {
      var rest, r := resumes[..|resumes| - 1], resumes[|resumes| - 1];
      assert resumes == rest + [r];
      FeedAt(state, rest, sent, name);
      if sent(name) && r.session.name == name {
        assert r in resumes;
      }
    }
  }

  /** What one pass does to the record of one session: a nudge comes only when it is
      due and attempts are left, counts one, and keeps the date of the first throttle;
      without a nudge the record stays as it is. */
  lemma PassAt(state: Ledger, pass: Pass, name: string)
    ensures var after := After(state, pass);
            if Nudged(state, pass, name)
            then
              && name in after && after[name].attempts == AttemptsOf(state, name) + 1 <= pass.probe.maxAttempts
              && (name in state ==> pass.probe.now >= state[name].nextRetryAt
                                    && after[name].firstAt == state[name].firstAt)
              && (name !in state ==> after[name].firstAt == pass.probe.now)
              && after[name].nextRetryAt >= pass.probe.now
            else (name in after <==> name in state) && (name in after ==> after[name] == state[name])
  {
    hide PlanOf, Feed, Throttled, Detached, Stalled;
    var resumes := PlanOf(pass.probe, state, pass.sessions).toResume;
    FeedAt(state, resumes, pass.sent, name);
    if Nudged(state, pass, name) {
      var r :| r in resumes && r.session.name == name && After(state, pass)[name] == r.next;
      EligibleMeans(pass.probe, state, pass.sessions, r);
    }
  }

  /** Over any run that feeds the bookkeeping back, the recorded attempts count the
      nudges; there are never more than `max` of them. */
  lemma {:induction false} NudgesAreLimited(state: Ledger, passes: seq<Pass>, name: string, max: nat)
    requires forall k | 0 <= k < |passes| :: passes[k].probe.maxAttempts == max
    ensures AttemptsOf(Run(state, passes), name) == AttemptsOf(state, name) + Nudges(state, passes, name)
    ensures AttemptsOf(Run(state, passes), name) <= Max(max, AttemptsOf(state, name))
  {
    hide Nudged, After;
    if passes != [] {
      var n := |passes| - 1;
      NudgesAreLimited(state, passes[..n], name, max);
      PassAt(Run(state, passes[..n]), passes[n], name);
    }
  }

  /** Once a session is on record, its first throttle keeps its date in every run. */
  lemma {:induction false} FirstThrottleStays(state: Ledger, passes: seq<Pass>, name: string)
    requires name in state
    ensures name in Run(state, passes) && Run(state, passes)[name].firstAt == state[name].firstAt
  {
    hide Nudged, After;
    if passes != [] {
      var n := |passes| - 1;
      FirstThrottleStays(state, passes[..n], name);
      PassAt(Run(state, passes[..n]), passes[n], name);
    }
  }

  /** No session is nudged before its retry time, nor while somebody is attached to it
      or it is not known to have stalled. */
  lemma NeverTooEarly(state: Ledger, passes: seq<Pass>, name: string)
    requires passes != [] && Nudged(Run(state, passes[..|passes| - 1]), passes[|passes| - 1], name)
    ensures var before, p := Run(state, passes[..|passes| - 1]), passes[|passes| - 1].probe;
            && (name in before ==> p.now >= before[name].nextRetryAt)
            && name in p.attached && p.attached[name] == 0
            && name in p.stalled && p.stalled[name]
  {
    hide PlanOf, Run;
    var before, pass := Run(state, passes[..|passes| - 1]), passes[|passes| - 1];
    var r :| r in PlanOf(pass.probe, before, pass.sessions).toResume && r.session.name == name;
    EligibleMeans(pass.probe, before, pass.sessions, r);
  }
}
