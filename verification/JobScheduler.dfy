/**
 The job queue of the conductor (packages/h2a-runtime/src/delegate.ts): FIFO
 admission under an effective cap that reacts to rate limits, the throttle
 bookkeeping of a job and the depth budget of nested delegation; and the registry
 steps around them (packages/h2a-runtime/src/registry.ts).  Times are integer
 milliseconds.
 */
module JobScheduler {
  import opened Common
  import opened Sorting

  datatype JobState = Pending | Running | Throttled | Done | Failed

  datatype ThrottleInfo = ThrottleInfo(attempts: nat, firstAt: int, nextRetryAt: int)

  /** A registry entry; only entries with the role of a job take part in scheduling. */
  datatype Job = Job(
    id: string, isJob: bool, state: JobState, enrolledAt: int, lastSeenAt: int, throttle: Option<ThrottleInfo>)

  predicate OccupiesSlot(state: JobState) {
    state == Running || state == Throttled
  }

  predicate HoldsSlot(j: Job) {
    j.isJob && OccupiesSlot(j.state)
  }

  predicate Waiting(j: Job) {
    j.isJob && j.state == Pending
  }

  function Slots(jobs: seq<Job>): nat {
    |Filter(HoldsSlot, jobs)|
  }

  // ----- which pending jobs to start -----

  predicate Older(a: Job, b: Job) {
    a.enrolledAt <= b.enrolledAt
  }

  function Queue(jobs: seq<Job>): seq<Job> {
    Sort(Older, Filter(Waiting, jobs))
  }

  function Room(jobs: seq<Job>, cap: int): nat {
    if cap <= 0 then 0 else Max(0, cap - Slots(jobs))
  }

  /** The jobs admitted this pass, in admission order, and those left in the queue. */
  function Admitted(jobs: seq<Job>, cap: int): seq<Job> {
    Queue(jobs)[..Min(|Queue(jobs)|, Room(jobs, cap))]
  }

  function LeftWaiting(jobs: seq<Job>, cap: int): seq<Job> {
    Queue(jobs)[Min(|Queue(jobs)|, Room(jobs, cap))..]
  }

  function Ids(jobs: seq<Job>): seq<string> {
    if jobs == [] then [] else Ids(jobs[..|jobs| - 1]) + [jobs[|jobs| - 1].id]
  }

  lemma {:induction false} IdsAt(jobs: seq<Job>)
    ensures |Ids(jobs)| == |jobs| && forall i | 0 <= i < |jobs| :: Ids(jobs)[i] == jobs[i].id
  {
    if jobs != [] {
      IdsAt(jobs[..|jobs| - 1]);
    }
  }

  method CountSlots(jobs: seq<Job>) returns (n: nat)
    ensures n == Slots(jobs)
  {
    n := 0;
    for i := 0 to |jobs|
      invariant n == |Filter(HoldsSlot, jobs[..i])|
    {
      assert jobs[..i + 1][..i] == jobs[..i];
      if HoldsSlot(jobs[i]) {
        n := n + 1;
      }
    }
    assert jobs[..|jobs|] == jobs;
  }

  method PlanNextStarts(jobs: seq<Job>, cap: int) returns (out: seq<string>)
    ensures out == Ids(Admitted(jobs, cap))
  {
    out := [];
    if cap <= 0 {
      return;
    }
    var running := CountSlots(jobs);
    var free := cap - running;
    if free <= 0 {
      return;
    }
    var waiting: seq<Job> := [];
    for i := 0 to |jobs|
      invariant waiting == Filter(Waiting, jobs[..i])
    {
      assert jobs[..i + 1][..i] == jobs[..i];
      if Waiting(jobs[i]) {
        waiting := waiting + [jobs[i]];
      }
    }
    assert jobs[..|jobs|] == jobs;
    var queue := Sort(Older, waiting);
    var i := 0;
    while i < |queue|
      invariant i <= |queue| && i <= cap - running && free == cap - running - i
      invariant out == Ids(queue[..i])
    {
      if free <= 0 {
        break;
      }
      assert queue[..i + 1][..i] == queue[..i];
      out := out + [queue[i].id];
      free := free - 1;
      i := i + 1;
    }
    assert i == Min(|queue|, Room(jobs, cap));
  }

  method HasFreeSlot(jobs: seq<Job>, cap: int) returns (free: bool)
    ensures free <==> Room(jobs, cap) > 0
  {
    if cap <= 0 {
      return false;
    }
    var running := CountSlots(jobs);
    return running < cap;
  }

  lemma OlderIsTotal()
    ensures TotalPreorder(Older)
  {
  }

  lemma AdmittedAndLeft(jobs: seq<Job>, cap: int)
    ensures |Admitted(jobs, cap)| == Min(|Filter(Waiting, jobs)|, Room(jobs, cap))
    ensures multiset(Admitted(jobs, cap) + LeftWaiting(jobs, cap)) == multiset(Filter(Waiting, jobs))
    ensures SortedBy(Older, Admitted(jobs, cap) + LeftWaiting(jobs, cap))
  {
    hide Sort, Filter, Room;
    OlderIsTotal();
    SortFacts(Older, Filter(Waiting, jobs));
    assert Admitted(jobs, cap) + LeftWaiting(jobs, cap) == Queue(jobs);
  }

  /** How many jobs are in this state. */
  function Count(jobs: seq<Job>, state: JobState): nat {
    if jobs == [] then 0
    else
      var j := jobs[|jobs| - 1];
      Count(jobs[..|jobs| - 1], state) + if j.isJob && j.state == state then 1 else 0
  }

  lemma {:induction false} SlotsAreCounted(jobs: seq<Job>)
    ensures Slots(jobs) == Count(jobs, Running) + Count(jobs, Throttled)
    ensures |Filter(Waiting, jobs)| == Count(jobs, Pending)
  {
    if jobs != [] {
      SlotsAreCounted(jobs[..|jobs| - 1]);
    }
  }

  /** The pending jobs, longest enrolled first. */
  ghost predicate InTurn(jobs: seq<Job>, queue: seq<Job>) {
    && (forall j :: multiset(queue)[j] == if j.isJob && j.state == Pending then multiset(jobs)[j] else 0)
    && (forall i, k | 0 <= i < k < |queue| :: queue[i].enrolledAt <= queue[k].enrolledAt)
  }

  lemma {:induction false} WaitingCounts(jobs: seq<Job>, j: Job)
    ensures multiset(Filter(Waiting, jobs))[j] == if j.isJob && j.state == Pending then multiset(jobs)[j] else 0
  {
    if jobs != [] {
      var n := |jobs| - 1;
      WaitingCounts(jobs[..n], j);
      assert jobs == jobs[..n] + [jobs[n]];
    }
  }

  /** The pending jobs take their turn by age.  Running and throttled jobs hold slots, and
      as many jobs are admitted as slots are free, or as there are. */
  lemma AdmissionIsFifo(jobs: seq<Job>, cap: int)
    ensures InTurn(jobs, Admitted(jobs, cap) + LeftWaiting(jobs, cap))
    ensures var free := cap - Count(jobs, Running) - Count(jobs, Throttled);
            |Admitted(jobs, cap)| == Min(Count(jobs, Pending), Max(0, free))
  {
    hide Filter, Admitted, LeftWaiting, Slots;
    AdmittedAndLeft(jobs, cap);
    SlotsAreCounted(jobs);
    forall j
      ensures multiset(Filter(Waiting, jobs))[j] == if j.isJob && j.state == Pending then multiset(jobs)[j] else 0
    {
      WaitingCounts(jobs, j);
    }
  }

  /** Among jobs enrolled at the same instant, registry order decides: the admitted
      ones are the first of them. */
  lemma TiesGoInRegistryOrder(jobs: seq<Job>, cap: int, at: int)
    ensures var same := (j: Job) => j.enrolledAt == at;
            Filter(same, Admitted(jobs, cap)) + Filter(same, LeftWaiting(jobs, cap)) ==
            Filter(same, Filter(Waiting, jobs))
  {
    hide Sort, Filter, Room;
    var same := (j: Job) => j.enrolledAt == at;
    SortStable(Older, same, Filter(Waiting, jobs));
    FilterConcat(same, Admitted(jobs, cap), LeftWaiting(jobs, cap));
    assert Admitted(jobs, cap) + LeftWaiting(jobs, cap) == Queue(jobs);
  }

  // ----- the effective cap -----

  const AIMD_WINDOW_MS := 600000
  const AIMD_TRIP_THRESHOLD := 2

  function InWindow(throttles: seq<int>, now: int): nat {
    |Filter((t: int) => now - AIMD_WINDOW_MS <= t <= now, throttles)|
  }

  predicate Tripped(throttles: seq<int>, now: int) {
    InWindow(throttles, now) >= AIMD_TRIP_THRESHOLD
  }

  lemma {:induction false} CountedTwice(p: int -> bool, throttles: seq<int>)
    ensures |Filter(p, throttles)| >= 1 <==> exists i | 0 <= i < |throttles| :: p(throttles[i])
    ensures |Filter(p, throttles)| >= 2 <==>
              exists i, k | 0 <= i < k < |throttles| :: p(throttles[i]) && p(throttles[k])
  {
    if throttles != [] {
      var n := |throttles| - 1;
      CountedTwice(p, throttles[..n]);
      forall i | 0 <= i < n
        ensures throttles[..n][i] == throttles[i]
      {
      }
      if i, k :| 0 <= i < k < |throttles| && p(throttles[i]) && p(throttles[k]) && k < n {
        assert p(throttles[..n][i]) && p(throttles[..n][k]);
      }
      if i :| 0 <= i < n && p(throttles[..n][i]) && p(throttles[n]) {
        assert p(throttles[i]) && p(throttles[n]);
      }
    }
  }

  /** The breaker trips on two throttles within the last ten minutes. */
  lemma TripsOnTwo(throttles: seq<int>, now: int)
    ensures Tripped(throttles, now) <==>
              exists i, k | 0 <= i < k < |throttles| ::
                now - 600000 <= throttles[i] <= now && now - 600000 <= throttles[k] <= now
  {
    hide Filter;
    CountedTwice((t: int) => now - AIMD_WINDOW_MS <= t <= now, throttles);
  }

  /** The cap after one pass, from the cap of the pass before (none on the first). */
  function NextCap(configured: int, tripped: bool, last: Option<int>): int {
    if configured <= 0 then 0
    else
      var prev := if last.None? then configured else Min(configured, Max(1, last.value));
      var next := if tripped then Max(1, prev / 2) else prev + 1;
      Min(configured, Max(1, next))
  }

  method EffectiveCap(configured: int, throttles: seq<int>, now: int, last: Option<int>) returns (cap: int)
    ensures cap == NextCap(configured, Tripped(throttles, now), last)
  {
    if configured <= 0 {
      return 0;
    }
    var prev := if last.None? then configured else Min(configured, Max(1, last.value));
    var inWindow := 0;
    ghost var recent := (t: int) => now - AIMD_WINDOW_MS <= t <= now;
    for i := 0 to |throttles|
      invariant inWindow == |Filter(recent, throttles[..i])|
    {
      assert throttles[..i + 1][..i] == throttles[..i];
      if now - AIMD_WINDOW_MS <= throttles[i] <= now {
        inWindow := inWindow + 1;
      }
    }
    assert throttles[..|throttles|] == throttles;
    if inWindow >= AIMD_TRIP_THRESHOLD {
      cap := Max(1, prev / 2);
    } else {
      cap := prev + 1;
    }
    if cap < 1 {
      cap := 1;
    }
    if cap > configured {
      cap := configured;
    }
  }

  /** The cap after a series of passes, tripped or clean. */
  function CapAfter(configured: int, last: Option<int>, trips: seq<bool>): Option<int> {
    if trips == [] then last
    else Some(NextCap(configured, trips[|trips| - 1], CapAfter(configured, last, trips[..|trips| - 1])))
  }

  lemma HalfOfQuotient(n: nat, p: int)
    requires p >= 1
    ensures (n / p) / 2 == n / (2 * p)
  {
    var q, r := n / p, n % p;
    var a, b := q / 2, q % 2;
    assert n == p * q + r && q == 2 * a + b;
    assert p * q == 2 * p * a + p * b by {
      assert p * (2 * a + b) == p * (2 * a) + p * b;
    }
    assert 0 <= p * b <= p;
    var rest := p * b + r;
    assert n == (2 * p) * a + rest && 0 <= rest < 2 * p;
    QuotientIs(n, 2 * p, a, rest);
  }

  lemma QuotientIs(n: int, d: int, a: int, r: int)
    requires d >= 1 && n == d * a + r && 0 <= r < d
    ensures n / d == a
  {
    var q, s := n / d, n % d;
    assert d * (q - a) == r - s;
    SmallMultiple(d, q - a);
  }

  lemma SmallMultiple(d: int, k: int)
    requires d >= 1 && -d < d * k < d
    ensures k == 0
  {
    assert d * (-k) == -(d * k);
    Scale(d, k);
    Scale(d, -k);
  }

  lemma Scale(d: int, k: int)
    ensures d >= 1 && k >= 1 ==> d * k >= d
  {
  }

  /** After `j` tripped passes from the full cap: the cap halved `j` times, at least 1. */
  lemma {:induction false} TrippedPasses(configured: int, trips: seq<bool>)
    requires configured > 0 && trips != [] && forall i | 0 <= i < |trips| :: trips[i]
    ensures CapAfter(configured, None, trips) == Some(Max(1, configured / Pow2(|trips|)))
  {
    var n := |trips| - 1;
    assert Pow2(n + 1) == 2 * Pow2(n);
    HalfOfQuotient(configured, Pow2(n));
    if n > 0 {
      TrippedPasses(configured, trips[..n]);
      QuotientAtMost(configured, Pow2(n));
    } else {
      assert CapAfter(configured, None, trips[..0]) == None;
      assert configured / 1 == configured;
    }
  }

  lemma QuotientAtMost(n: nat, d: int)
    requires d >= 1
    ensures n / d <= n
  {
    Scale(n / d, d);
  }

  /** After `k` clean passes from a cap in range: one more each pass, up to the full cap. */
  lemma {:induction false} CleanPasses(configured: int, last: int, trips: seq<bool>)
    requires 1 <= last <= configured && forall i | 0 <= i < |trips| :: !trips[i]
    ensures CapAfter(configured, Some(last), trips) == Some(Min(configured, last + |trips|))
  {
    if trips != [] {
      CleanPasses(configured, last, trips[..|trips| - 1]);
    }
  }

  /** Whatever the passes see, the cap stays between one slot and the configured cap. */
  lemma CapStaysInRange(configured: int, last: Option<int>, trips: seq<bool>)
    requires configured > 0 && trips != []
    ensures var cap := CapAfter(configured, last, trips);
            cap.Some? && 1 <= cap.value <= configured
  {
  }

  // ----- throttle bookkeeping of one job -----

  const THROTTLE_MAX_ATTEMPTS := 6

  datatype Hit = Hit(now: int, delay: int)
  datatype ThrottleStep = Throttle(info: ThrottleInfo) | GiveUp

  function PlanThrottle(prior: Option<ThrottleInfo>, hit: Hit, max: nat): ThrottleStep {
    var attempts := if prior.Some? then prior.value.attempts else 0;
    if attempts >= max then GiveUp
    else
      Throttle(ThrottleInfo(attempts + 1, if prior.Some? then prior.value.firstAt else hit.now, hit.now + hit.delay))
  }

  /** The bookkeeping after a series of rate-limit hits; giving up is final. */
  function AfterHits(hits: seq<Hit>, max: nat): Option<ThrottleStep> {
    if hits == [] then None
    else
      var before := AfterHits(hits[..|hits| - 1], max);
      var hit := hits[|hits| - 1];
      match before
      case None => Some(PlanThrottle(None, hit, max))
      case Some(GiveUp) => before
      case Some(Throttle(info)) => Some(PlanThrottle(Some(info), hit, max))
  }

  /** Exactly the first `max` hits throttle, numbered in turn and dated from the
      first; every later one fails the job. */
  lemma {:induction false} ThrottleRun(hits: seq<Hit>, max: nat)
    requires hits != []
    ensures AfterHits(hits, max) ==
              if |hits| <= max
              then Some(Throttle(ThrottleInfo(|hits|, hits[0].now, hits[|hits| - 1].now + hits[|hits| - 1].delay)))
              else Some(GiveUp)
  {
    var n := |hits| - 1;
    if n > 0 {
      ThrottleRun(hits[..n], max);
    } else {
      assert AfterHits(hits[..0], max) == None;
    }
  }

  function BackoffCeiling(attempt: int, base: nat, cap: nat): int {
    Min(cap, base * Pow2(Max(0, attempt)))
  }

  /** A random draw in [0, 1) scaled into the window. */
  function JitteredBackoff(draw: real, window: nat): real {
    draw * window as real
  }

  lemma Times(base: nat, p: int, q: int)
    requires p <= q
    ensures base * p <= base * q
  {
  }

  /** The window never shrinks from one attempt to the next and never passes the cap. */
  lemma BackoffGrows(a: nat, b: nat, base: nat, cap: nat)
    requires a <= b
    ensures 0 <= BackoffCeiling(a, base, cap) <= BackoffCeiling(b, base, cap) <= cap
  {
    Pow2Grows(a, b);
    Times(base, Pow2(a), Pow2(b));
    Times(base, 0, Pow2(a));
  }

  /** It starts from the base, doubles until it meets the cap and then stays there. */
  lemma BackoffDoubles(a: nat, base: nat, cap: nat)
    ensures BackoffCeiling(0, base, cap) == Min(cap, base)
    ensures BackoffCeiling(a + 1, base, cap) == Min(cap, 2 * BackoffCeiling(a, base, cap))
  {
    assert Pow2(a + 1) == 2 * Pow2(a);
    assert base * (2 * Pow2(a)) == 2 * (base * Pow2(a));
    Times(base, 0, Pow2(a));
  }

  /** A drawn delay never leaves the window. */
  lemma JitterStaysInWindow(draw: real, window: nat)
    requires 0.0 <= draw < 1.0
    ensures 0.0 <= JitteredBackoff(draw, window) <= window as real
  {
    ScaleDown(draw, window as real);
  }

  /** Every delay inside the window can be drawn. */
  lemma EveryDelayCanBeDrawn(delay: real, window: nat)
    requires 0.0 <= delay < window as real
    ensures exists draw: real :: 0.0 <= draw < 1.0 && JitteredBackoff(draw, window) == delay
  {
    var draw := delay / window as real;
    QuotientTimes(delay, window as real);
    ScaleSign(draw, window as real);
    assert JitteredBackoff(draw, window) == delay;
  }

  lemma QuotientTimes(x: real, y: real)
    requires y > 0.0
    ensures x / y * y == x
  {
  }

  lemma ScaleSign(q: real, y: real)
    requires y > 0.0
    ensures q < 0.0 ==> q * y < 0.0
    ensures q >= 1.0 ==> q * y >= y
  {
  }

  lemma ScaleDown(draw: real, x: real)
    requires 0.0 <= draw < 1.0 && 0.0 <= x
    ensures 0.0 <= draw * x <= x
  {
  }

  // ----- depth of nested delegation -----

  const DEFAULT_MAX_DEPTH := 1
  const MIN_MAX_DEPTH := 1
  const MAX_MAX_DEPTH := 3

  /** What the depth variable of a job's environment holds. */
  datatype DepthEnv = Unset | Unreadable | Depth(value: int)

  function ClampDepth(requested: Option<int>): int {
    if requested.None? then DEFAULT_MAX_DEPTH else Min(MAX_MAX_DEPTH, Max(MIN_MAX_DEPTH, requested.value))
  }

  function DepthBudget(requested: Option<int>, env: DepthEnv): int {
    match env
    case Depth(n) => Min(MAX_MAX_DEPTH, Max(0, n))
    case _ => ClampDepth(requested)
  }

  predicate MayDelegate(budget: int) {
    budget > 0
  }

  function ChildDepth(budget: int): DepthEnv {
    Depth(Max(0, budget - 1))
  }

  /** The budget of the caller at nesting level `k`; level 0 runs outside any job
      and every level may ask for any depth it likes. */
  function BudgetAt(requests: seq<Option<int>>, k: nat): int
    requires k < |requests|
  {
    if k == 0 then DepthBudget(requests[0], Unset) else DepthBudget(requests[k], ChildDepth(BudgetAt(requests, k - 1)))
  }

  /** Delegation nests exactly as deep as the outermost request allows: no job can
      grant itself more than it was given. */
  lemma {:induction false} DepthIsBounded(requests: seq<Option<int>>, k: nat)
    requires k < |requests|
    ensures var depth := if requests[0].None? || requests[0].value < 1 then 1
                         else if requests[0].value > 3 then 3 else requests[0].value;
            && BudgetAt(requests, k) == Max(0, depth - k)
            && (MayDelegate(BudgetAt(requests, k)) <==> k < depth)
  {
    if k > 0 {
      DepthIsBounded(requests, k - 1);
    }
  }

  // ----- the registry -----

  predicate CanTransition(from: JobState, to: JobState) {
    match from
    case Pending => to == Running || to == Failed
    case Running => to == Throttled || to == Done || to == Failed
    case Throttled => to == Running || to == Done || to == Failed
    case _ => false
  }

  /** The position of the first entry with this id. */
  function IndexOfId(jobs: seq<Job>, id: string): (i: Option<nat>)
    ensures i.Some? ==> i.value < |jobs| && jobs[i.value].id == id
    ensures i.None? ==> forall k | 0 <= k < |jobs| :: jobs[k].id != id
  {
    if jobs == [] then None
    else
      var before := IndexOfId(jobs[..|jobs| - 1], id);
      if before.Some? then before else if jobs[|jobs| - 1].id == id then Some(|jobs| - 1) else None
  }

  /** Enrolling updates the entry of that id, or appends one. */
  function Upsert(jobs: seq<Job>, j: Job): seq<Job> {
    var i := IndexOfId(jobs, j.id);
    if i.Some? then jobs[i.value := j.(enrolledAt := jobs[i.value].enrolledAt, throttle := jobs[i.value].throttle)]
    else jobs + [j]
  }

  function Fresh(id: string, state: JobState, now: int): Job {
    Job(id, true, state, now, now, None)
  }

  /** A slot is claimed only when the others leave room for one more. */
  function TryClaim(jobs: seq<Job>, id: string, cap: int, now: int): Option<seq<Job>> {
    var i := IndexOfId(jobs, id);
    var own := if i.Some? && HoldsSlot(jobs[i.value]) then 1 else 0;
    if cap <= 0 || Slots(jobs) - own >= cap then None else Some(Upsert(jobs, Fresh(id, Running, now)))
  }

  function Advance(jobs: seq<Job>, id: string, to: JobState, now: int): seq<Job> {
    var i := IndexOfId(jobs, id);
    if i.None? || !jobs[i.value].isJob then jobs
    else if jobs[i.value].state != to && !CanTransition(jobs[i.value].state, to) then jobs
    else jobs[i.value := jobs[i.value].(state := to, lastSeenAt := now)]
  }

  /** A finished run that hit a rate limit. */
  function RecordHit(jobs: seq<Job>, id: string, hit: Hit): seq<Job> {
    var i := IndexOfId(jobs, id);
    if i.None? || !jobs[i.value].isJob || jobs[i.value].state != Running then jobs
    else
      var j := jobs[i.value];
      match PlanThrottle(j.throttle, hit, THROTTLE_MAX_ATTEMPTS)
      case GiveUp => Advance(jobs, id, Failed, hit.now)
      case Throttle(info) => jobs[i.value := j.(state := Throttled, throttle := Some(info), lastSeenAt := hit.now)]
  }

  /** The throttle moments that the breaker counts, one per job. */
  function ThrottleEvents(jobs: seq<Job>): seq<int> {
    if jobs == [] then []
    else
      var j := jobs[|jobs| - 1];
      ThrottleEvents(jobs[..|jobs| - 1]) +
      if !j.isJob || j.throttle.None? then []
      else [if j.state == Throttled then j.lastSeenAt else j.throttle.value.firstAt]
  }

  /** Start the planned jobs one after the other; a failed launch fails its job. */
  function StartAll(jobs: seq<Job>, ids: seq<string>, launches: string -> bool, now: int): seq<Job> {
    if ids == [] then jobs
    else
      var before := StartAll(jobs, ids[..|ids| - 1], launches, now);
      var id := ids[|ids| - 1];
      if launches(id) then Upsert(before, Fresh(id, Running, now)) else Advance(before, id, Failed, now)
  }

  // ----- runs -----

  datatype World = World(jobs: seq<Job>, lastCap: Option<int>)

  /** `Launch` starts a job and enrols it as running without a claim: a requested
      conductor, or a delegation launched from memory after its claim failed on the
      registry.  It is the launch that enrols the job; when the registry cannot be
      written then either, the job runs without an entry, which is no step here. */
  datatype Step =
    | Enqueue(id: string, now: int)
    | Claim(id: string, now: int)
    | Launch(id: string, now: int)
    | Move(id: string, to: JobState, now: int)
    | RateLimited(id: string, hit: Hit)
    | Pass(launches: string -> bool, now: int)

  function PassCap(w: World, configured: int, now: int): int {
    NextCap(configured, Tripped(ThrottleEvents(w.jobs), now), w.lastCap)
  }

  function Apply(w: World, configured: int, step: Step): World {
    match step
    case Enqueue(id, now) => w.(jobs := Upsert(w.jobs, Fresh(id, Pending, now)))
    case Claim(id, now) =>
      var claimed := TryClaim(w.jobs, id, configured, now);
      if claimed.None? then w else w.(jobs := claimed.value)
    case Launch(id, now) => w.(jobs := Upsert(w.jobs, Fresh(id, Running, now)))
    case Move(id, to, now) => w.(jobs := Advance(w.jobs, id, to, now))
    case RateLimited(id, hit) => w.(jobs := RecordHit(w.jobs, id, hit))
    case Pass(launches, now) =>
      var cap := PassCap(w, configured, now);
      World(StartAll(w.jobs, Ids(Admitted(w.jobs, cap)), launches, now), Some(cap))
  }

  function Run(w: World, configured: int, steps: seq<Step>): World {
    if steps == [] then w else Apply(Run(w, configured, steps[..|steps| - 1]), configured, steps[|steps| - 1])
  }

  predicate HoldsSlotById(jobs: seq<Job>, id: string) {
    var i := IndexOfId(jobs, id);
    i.Some? && HoldsSlot(jobs[i.value])
  }

  predicate WaitsById(jobs: seq<Job>, id: string) {
    var i := IndexOfId(jobs, id);
    i.Some? && Waiting(jobs[i.value])
  }

  /** A job without a slot set running past claim and pass: by a launch, or by moving it
      out of the queue (which `advanceJob` allows, though no caller does it). */
  predicate StartsUnclaimed(jobs: seq<Job>, step: Step) {
    match step
    case Launch(id, _) => !HoldsSlotById(jobs, id)
    case Move(id, to, _) => to == Running && WaitsById(jobs, id)
    case _ => false
  }

  function UnclaimedStarts(w: World, configured: int, steps: seq<Step>): nat {
    if steps == [] then 0
    else
      var before := steps[..|steps| - 1];
      UnclaimedStarts(w, configured, before) +
      if StartsUnclaimed(Run(w, configured, before).jobs, steps[|steps| - 1]) then 1 else 0
  }

  // ----- what one step does to the registry -----

  /** Entry `i` is the first with this id. */
  ghost predicate FirstWithId(jobs: seq<Job>, id: string, i: nat) {
    i < |jobs| && jobs[i].id == id && forall k | 0 <= k < i :: jobs[k].id != id
  }

  lemma {:induction false} FirstIsIndexed(jobs: seq<Job>, id: string)
    ensures forall i: nat :: FirstWithId(jobs, id, i) <==> IndexOfId(jobs, id) == Some(i)
  {
    if jobs != [] {
      var n := |jobs| - 1;
      FirstIsIndexed(jobs[..n], id);
      forall i: nat
        ensures FirstWithId(jobs, id, i) <==>
                  FirstWithId(jobs[..n], id, i)
                  || (i == n && jobs[n].id == id && forall k | 0 <= k < n :: jobs[k].id != id)
      {
        FirstStep(jobs, id, i);
      }
    }
  }

  lemma FirstStep(jobs: seq<Job>, id: string, i: nat)
    requires jobs != []
    ensures var n := |jobs| - 1;
            FirstWithId(jobs, id, i) <==>
              FirstWithId(jobs[..n], id, i)
              || (i == n && jobs[n].id == id && forall k | 0 <= k < n :: jobs[k].id != id)
  {
    forall k | 0 <= k < |jobs| - 1
      ensures jobs[..|jobs| - 1][k] == jobs[k]
    {
    }
  }

  /** The entry is a job as it is enrolled: its age and its throttle history are kept. */
  ghost predicate EnrolledAs(jobs: seq<Job>, after: seq<Job>, id: string, state: JobState, now: int) {
    && (forall i: nat | FirstWithId(jobs, id, i) ::
          after == jobs[i := Job(id, true, state, jobs[i].enrolledAt, now, jobs[i].throttle)])
    && ((forall i: nat :: !FirstWithId(jobs, id, i)) ==> after == jobs + [Job(id, true, state, now, now, None)])
  }

  lemma UpsertEnrols(jobs: seq<Job>, id: string, state: JobState, now: int)
    ensures EnrolledAs(jobs, Upsert(jobs, Fresh(id, state, now)), id, state, now)
  {
    FirstIsIndexed(jobs, id);
  }

  /** A queued job waits, a launched one runs, whatever the slots; a claim sets its job
      running exactly if the running and throttled jobs, its own entry aside, leave a slot
      of the cap free, and changes nothing otherwise. */
  lemma EnrolmentIff(w: World, configured: int, id: string, now: int)
    ensures EnrolledAs(w.jobs, Apply(w, configured, Enqueue(id, now)).jobs, id, Pending, now)
    ensures EnrolledAs(w.jobs, Apply(w, configured, Launch(id, now)).jobs, id, Running, now)
    ensures var after := Apply(w, configured, Claim(id, now)).jobs;
            var own := if HoldsSlotById(w.jobs, id) then 1 else 0;
            if 0 < configured && Count(w.jobs, Running) + Count(w.jobs, Throttled) - own < configured
            then EnrolledAs(w.jobs, after, id, Running, now) else after == w.jobs
  {
    hide Slots, EnrolledAs, Upsert;
    SlotsAreCounted(w.jobs);
    UpsertEnrols(w.jobs, id, Pending, now);
    UpsertEnrols(w.jobs, id, Running, now);
  }

  /** A job moves from waiting to running, from running to throttled and back, from either
      of these to done, and from all three to failed; done and failed are final.  Every
      other move, and one of an entry that is no job, changes nothing. */
  lemma MoveIff(w: World, configured: int, id: string, to: JobState, now: int)
    ensures var jobs, after := w.jobs, Apply(w, configured, Move(id, to, now)).jobs;
            && (forall i: nat | FirstWithId(jobs, id, i) ::
                  after == if jobs[i].isJob &&
                              (jobs[i].state == to ||
                               (jobs[i].state, to) in
                                 {(Pending, Running), (Pending, Failed), (Running, Throttled), (Running, Done),
                                  (Running, Failed), (Throttled, Running), (Throttled, Done), (Throttled, Failed)})
                           then jobs[i := jobs[i].(state := to, lastSeenAt := now)] else jobs)
            && ((forall i: nat :: !FirstWithId(jobs, id, i)) ==> after == jobs)
  {
    FirstIsIndexed(w.jobs, id);
  }

  /** A rate limit throttles a running job for the given delay and counts, from the date
      of the first; after six it fails the job.  It touches nothing else. */
  lemma RateLimitMeans(w: World, configured: int, id: string, hit: Hit)
    ensures var jobs, after := w.jobs, Apply(w, configured, RateLimited(id, hit)).jobs;
            && (forall i: nat | FirstWithId(jobs, id, i) ::
                  var j := jobs[i];
                  var count := if j.throttle.Some? then j.throttle.value.attempts else 0;
                  var since := if j.throttle.Some? then j.throttle.value.firstAt else hit.now;
                  after ==
                    if !j.isJob || j.state != Running then jobs
                    else if count >= 6 then jobs[i := j.(state := Failed, lastSeenAt := hit.now)]
                    else jobs[i := j.(state := Throttled, lastSeenAt := hit.now,
                                      throttle := Some(ThrottleInfo(count + 1, since, hit.now + hit.delay)))])
            && ((forall i: nat :: !FirstWithId(jobs, id, i)) ==> after == jobs)
  {
    FirstIsIndexed(w.jobs, id);
  }

  /** The moment of a throttled or once throttled job. */
  predicate ThrottledAt(j: Job, t: int) {
    j.isJob && j.throttle.Some? && t == if j.state == Throttled then j.lastSeenAt else j.throttle.value.firstAt
  }

  /** The breaker sees one moment of each throttled or once throttled job: the last one
      while it is throttled, and the first one afterwards. */
  lemma {:induction false} BreakerSees(jobs: seq<Job>, t: int)
    ensures t in ThrottleEvents(jobs) <==> exists i | 0 <= i < |jobs| :: ThrottledAt(jobs[i], t)
  {
    hide ThrottledAt;
    if jobs != [] {
      var n := |jobs| - 1;
      BreakerSees(jobs[..n], t);
      LastIsSeen(jobs, t);
      forall i | 0 <= i < n
        ensures jobs[..n][i] == jobs[i]
      {
      }
    }
  }

  lemma LastIsSeen(jobs: seq<Job>, t: int)
    requires jobs != []
    ensures var n := |jobs| - 1;
            t in ThrottleEvents(jobs) <==> t in ThrottleEvents(jobs[..n]) || ThrottledAt(jobs[n], t)
  {
  }

  // ----- slots under one step -----

  function Weight(j: Job): nat {
    if HoldsSlot(j) then 1 else 0
  }

  lemma {:induction false} SlotsUpdate(jobs: seq<Job>, i: nat, j: Job)
    requires i < |jobs|
    ensures Slots(jobs[i := j]) == Slots(jobs) - Weight(jobs[i]) + Weight(j)
    ensures Slots(jobs) >= Weight(jobs[i])
  {
    var n := |jobs| - 1;
    if i < n {
      SlotsUpdate(jobs[..n], i, j);
      assert jobs[i := j][..n] == jobs[..n][i := j];
    } else {
      assert jobs[i := j][..n] == jobs[..n];
    }
  }

  lemma SlotsAppend(jobs: seq<Job>, j: Job)
    ensures Slots(jobs + [j]) == Slots(jobs) + Weight(j)
  {
    assert (jobs + [j])[..|jobs|] == jobs;
  }

  lemma SlotsUpsert(jobs: seq<Job>, j: Job)
    ensures var i := IndexOfId(jobs, j.id);
            Slots(Upsert(jobs, j)) == Slots(jobs) - (if i.Some? then Weight(jobs[i.value]) else 0) + Weight(j)
  {
    var i := IndexOfId(jobs, j.id);
    if i.Some? {
      SlotsUpdate(jobs, i.value, j.(enrolledAt := jobs[i.value].enrolledAt, throttle := jobs[i.value].throttle));
    } else {
      SlotsAppend(jobs, j);
    }
  }

  /** A transition adds a slot exactly when it takes a job from the queue. */
  lemma SlotsAdvance(jobs: seq<Job>, id: string, to: JobState, now: int)
    ensures if to == Running && WaitsById(jobs, id) then Slots(Advance(jobs, id, to, now)) == Slots(jobs) + 1
            else Slots(Advance(jobs, id, to, now)) <= Slots(jobs)
  {
    var i := IndexOfId(jobs, id);
    if i.Some? {
      SlotsUpdate(jobs, i.value, jobs[i.value].(state := to, lastSeenAt := now));
    }
  }

  lemma SlotsHit(jobs: seq<Job>, id: string, hit: Hit)
    ensures Slots(RecordHit(jobs, id, hit)) <= Slots(jobs)
  {
    var i := IndexOfId(jobs, id);
    if i.Some? && jobs[i.value].isJob && jobs[i.value].state == Running {
      match PlanThrottle(jobs[i.value].throttle, hit, THROTTLE_MAX_ATTEMPTS)
      case GiveUp => FailKeepsSlots(jobs, id, hit.now);
      case Throttle(info) =>
        SlotsUpdate(jobs, i.value, jobs[i.value].(state := Throttled, throttle := Some(info), lastSeenAt := hit.now));
    }
  }

  lemma FailKeepsSlots(jobs: seq<Job>, id: string, now: int)
    ensures Slots(Advance(jobs, id, Failed, now)) <= Slots(jobs)
  {
    SlotsAdvance(jobs, id, Failed, now);
  }

  lemma {:induction false} SlotsStartAll(jobs: seq<Job>, ids: seq<string>, launches: string -> bool, now: int)
    ensures Slots(StartAll(jobs, ids, launches, now)) <= Slots(jobs) + |ids|
  {
    hide Upsert, Advance, Slots;
    if ids != [] {
      var rest, id := ids[..|ids| - 1], ids[|ids| - 1];
      SlotsStartAll(jobs, rest, launches, now);
      var before := StartAll(jobs, rest, launches, now);
      SlotsUpsert(before, Fresh(id, Running, now));
      FailKeepsSlots(before, id, now);
    }
  }

  /** A pass or a claim never takes the slots past the larger of the cap and what was
      occupied; an unclaimed start adds exactly one; nothing else adds any. */
  lemma SlotsAfterStep(w: World, configured: int, step: Step)
    requires configured > 0
    ensures var slots := Slots(Apply(w, configured, step).jobs);
            if StartsUnclaimed(w.jobs, step) then slots == Slots(w.jobs) + 1
            else slots <= Max(configured, Slots(w.jobs))
  {
    hide Slots, Upsert, Advance, RecordHit, StartAll, Admitted, HoldsSlot, Waiting;
    match step
    case Enqueue(id, now) =>
      SlotsUpsert(w.jobs, Fresh(id, Pending, now));
      PendingWeighsNothing(id, now);
    case Claim(id, now) => SlotsUpsert(w.jobs, Fresh(id, Running, now));
    case Launch(id, now) =>
      SlotsUpsert(w.jobs, Fresh(id, Running, now));
      RunningWeighsOne(id, now);
    case Move(id, to, now) => SlotsAdvance(w.jobs, id, to, now);
    case RateLimited(id, hit) => SlotsHit(w.jobs, id, hit);
    case Pass(launches, now) =>
      var cap := PassCap(w, configured, now);
      IdsAt(Admitted(w.jobs, cap));
      AdmittedAndLeft(w.jobs, cap);
      SlotsStartAll(w.jobs, Ids(Admitted(w.jobs, cap)), launches, now);
  }

  lemma PendingWeighsNothing(id: string, now: int)
    ensures Weight(Fresh(id, Pending, now)) == 0
  {
  }

  lemma RunningWeighsOne(id: string, now: int)
    ensures Weight(Fresh(id, Running, now)) == 1
  {
  }

  /** From at most the cap, a step overshoots it if and only if it starts a job
      unclaimed while every slot is taken. */
  lemma StepOvershootsIff(w: World, configured: int, step: Step)
    requires configured > 0 && Slots(w.jobs) <= configured
    ensures Slots(Apply(w, configured, step).jobs) > configured <==>
              StartsUnclaimed(w.jobs, step) && Slots(w.jobs) == configured
  {
    hide Slots, Apply, StartsUnclaimed;
    SlotsAfterStep(w, configured, step);
  }

  /** Over every run the slots occupied exceed the larger of the cap and the initial
      occupancy by at most the number of jobs started unclaimed. */
  lemma {:induction false} SlotsStayBounded(w: World, configured: int, steps: seq<Step>)
    requires configured > 0
    ensures Slots(Run(w, configured, steps).jobs) <=
              Max(configured, Slots(w.jobs)) + UnclaimedStarts(w, configured, steps)
  {
    hide Slots, Apply, StartsUnclaimed;
    if steps != [] {
      var before := steps[..|steps| - 1];
      SlotsStayBounded(w, configured, before);
      SlotsAfterStep(Run(w, configured, before), configured, steps[|steps| - 1]);
    }
  }

  /** After none of the first `n` steps more slots are taken than the cap allows. */
  ghost predicate WithinCap(w: World, configured: int, steps: seq<Step>, n: nat) {
    forall k: nat | k <= n && k <= |steps| :: Slots(Run(w, configured, steps[..k]).jobs) <= configured
  }

  /** No job is started unclaimed while every slot is taken. */
  ghost predicate NoUnclaimedWhenFull(w: World, configured: int, steps: seq<Step>, n: nat) {
    forall k: nat | k < n && k < |steps| ::
      !(StartsUnclaimed(Run(w, configured, steps[..k]).jobs, steps[k])
        && Slots(Run(w, configured, steps[..k]).jobs) == configured)
  }

  /** A run that starts within the cap stays within it throughout if and only if no job
      is started unclaimed while every slot is taken; without such starts, conductor
      passes, claims, resumed and rate-limited jobs never overshoot. */
  lemma {:induction false} SlotsStayWithinCapIff(w: World, configured: int, steps: seq<Step>, n: nat)
    requires configured > 0 && Slots(w.jobs) <= configured && n <= |steps|
    ensures WithinCap(w, configured, steps, n) <==> NoUnclaimedWhenFull(w, configured, steps, n)
  {
    hide Slots, Apply, StartsUnclaimed;
    if n == 0 {
      assert steps[..0] == [];
    } else {
      SlotsStayWithinCapIff(w, configured, steps, n - 1);
      assert steps[..n][..n - 1] == steps[..n - 1];
      assert WithinCap(w, configured, steps, n) <==>
             WithinCap(w, configured, steps, n - 1) && Slots(Run(w, configured, steps[..n]).jobs) <= configured;
      if WithinCap(w, configured, steps, n - 1) {
        assert Slots(Run(w, configured, steps[..n - 1]).jobs) <= configured;
        StepOvershootsIff(Run(w, configured, steps[..n - 1]), configured, steps[n - 1]);
      }
    }
  }

  /** One job claims the only slot, a requested conductor is queued and launched all the same. */
  lemma LaunchOvershoots(task: string, conductor: string, now: int)
    requires task != conductor
    ensures var steps := [Claim(task, now), Enqueue(conductor, now), Launch(conductor, now)];
            && Slots(Run(World([], None), 1, steps[..2]).jobs) == 1
            && Slots(Run(World([], None), 1, steps).jobs) == 2
  {
    hide Slots, Apply;
    var steps := [Claim(task, now), Enqueue(conductor, now), Launch(conductor, now)];
    var a, b := Fresh(task, Running, now), Fresh(conductor, Pending, now);
    assert steps[..1][..0] == [] && steps[..2][..1] == steps[..1] && steps[..2] == steps[..|steps| - 1];
    ClaimFirst(task, now);
    QueueSecond(a, conductor, now);
    LaunchSecond(World([a, b], None), conductor, now);
    var start := World([], None);
    assert Run(start, 1, steps[..0]) == start;
    assert Run(start, 1, steps[..1]) == World([a], None);
    assert Run(start, 1, steps[..2]) == World([a, b], None);
  }

  lemma ClaimFirst(id: string, now: int)
    ensures Apply(World([], None), 1, Claim(id, now)) == World([Fresh(id, Running, now)], None)
    ensures Slots([Fresh(id, Running, now)]) == 1
  {
    SlotsAppend([], Fresh(id, Running, now));
  }

  lemma QueueSecond(a: Job, id: string, now: int)
    requires a.id != id
    ensures Apply(World([a], None), 1, Enqueue(id, now)) == World([a, Fresh(id, Pending, now)], None)
    ensures Slots([a, Fresh(id, Pending, now)]) == Slots([a])
  {
    assert [a][..0] == [];
    assert [a] + [Fresh(id, Pending, now)] == [a, Fresh(id, Pending, now)];
    SlotsAppend([a], Fresh(id, Pending, now));
  }

  lemma LaunchSecond(w: World, id: string, now: int)
    requires |w.jobs| == 2 && w.jobs[0].id != id && w.jobs[1] == Fresh(id, Pending, now)
    ensures Slots(Apply(w, 1, Launch(id, now)).jobs) == Slots(w.jobs) + 1
  {
    hide Slots;
    assert IndexOfId(w.jobs, id) == Some(1);
    SlotsAfterStep(w, 1, Launch(id, now));
  }

  // ----- what a pass does to the queue -----

  ghost predicate UniqueIds(jobs: seq<Job>) {
    forall i, k | 0 <= i < k < |jobs| :: jobs[i].id != jobs[k].id
  }

  /** The launched ids run, the others have failed, and everyone else is untouched. */
  ghost predicate StartedFrom(jobs: seq<Job>, after: seq<Job>, ids: seq<string>, launches: string -> bool) {
    && |after| == |jobs|
    && forall i | 0 <= i < |jobs| ::
         && after[i].id == jobs[i].id && after[i].enrolledAt == jobs[i].enrolledAt
         && (jobs[i].id !in ids ==> after[i] == jobs[i])
         && (jobs[i].id in ids ==> after[i].isJob && after[i].state == if launches(jobs[i].id) then Running else Failed)
  }

  ghost predicate IsQueued(jobs: seq<Job>, id: string) {
    exists i | 0 <= i < |jobs| :: jobs[i].id == id && Waiting(jobs[i])
  }

  lemma {:induction false} StartAllStarts(jobs: seq<Job>, ids: seq<string>, launches: string -> bool, now: int)
    requires UniqueIds(jobs) && NoDuplicates(ids)
    requires forall id | id in ids :: IsQueued(jobs, id)
    ensures StartedFrom(jobs, StartAll(jobs, ids, launches, now), ids, launches)
  {
    if ids != [] {
      var rest, id := ids[..|ids| - 1], ids[|ids| - 1];
      assert ids == rest + [id];
      StartAllStarts(jobs, rest, launches, now);
      var before := StartAll(jobs, rest, launches, now);
      StartOne(jobs, before, rest, id, launches, now);
    }
  }

  lemma StartOne(jobs: seq<Job>, before: seq<Job>, rest: seq<string>, id: string, launches: string -> bool, now: int)
    requires UniqueIds(jobs) && id !in rest && StartedFrom(jobs, before, rest, launches)
    requires IsQueued(jobs, id)
    ensures var after := if launches(id) then Upsert(before, Fresh(id, Running, now))
                         else Advance(before, id, Failed, now);
            StartedFrom(jobs, after, rest + [id], launches)
  {
    hide Waiting;
    var i :| 0 <= i < |jobs| && jobs[i].id == id && Waiting(jobs[i]);
    var k := IndexOfId(before, id);
    assert before[i].id == id;
    assert k == Some(i);
    assert before[i] == jobs[i];
    assert jobs[i].isJob && jobs[i].state == Pending by {
      WaitingIs(jobs[i]);
    }
  }

  lemma WaitingIs(j: Job)
    ensures Waiting(j) <==> j.isJob && j.state == Pending
  {
  }

  lemma AdmittedAreWaiting(jobs: seq<Job>, cap: int)
    requires UniqueIds(jobs)
    ensures NoDuplicates(Ids(Admitted(jobs, cap)))
    ensures forall id | id in Ids(Admitted(jobs, cap)) :: IsQueued(jobs, id)
  {
    var admitted := Admitted(jobs, cap);
    IdsAt(admitted);
    IdsAt(Queue(jobs));
    QueueIsDuplicateFree(jobs);
    forall id | id in Ids(admitted)
      ensures IsQueued(jobs, id)
    {
      var k :| 0 <= k < |admitted| && Ids(admitted)[k] == id;
      assert Queue(jobs)[k] == admitted[k];
      SortKeepsMembers(Older, Filter(Waiting, jobs), admitted[k]);
      FilterMembers(Waiting, jobs);
    }
  }

  lemma {:induction false} StartAllFillsSlots(jobs: seq<Job>, ids: seq<string>, launches: string -> bool, now: int)
    requires UniqueIds(jobs) && NoDuplicates(ids) && forall id | id in ids :: IsQueued(jobs, id) && launches(id)
    ensures Slots(StartAll(jobs, ids, launches, now)) == Slots(jobs) + |ids|
  {
    hide Slots, StartedFrom, Upsert, UniqueIds;
    if ids != [] {
      var rest, id := ids[..|ids| - 1], ids[|ids| - 1];
      assert ids == rest + [id];
      StartAllFillsSlots(jobs, rest, launches, now);
      StartAllStarts(jobs, rest, launches, now);
      var before := StartAll(jobs, rest, launches, now);
      QueuedHoldsNoSlot(jobs, before, rest, id, launches);
      SlotsUpsert(before, Fresh(id, Running, now));
    }
  }

  lemma QueuedHoldsNoSlot(jobs: seq<Job>, before: seq<Job>, rest: seq<string>, id: string, launches: string -> bool)
    requires UniqueIds(jobs) && id !in rest && IsQueued(jobs, id) && StartedFrom(jobs, before, rest, launches)
    ensures IndexOfId(before, id).Some? && Weight(before[IndexOfId(before, id).value]) == 0
  {
    var i :| 0 <= i < |jobs| && jobs[i].id == id && Waiting(jobs[i]);
    assert before[i].id == id;
    assert IndexOfId(before, id) == Some(i);
  }

  /** When every launch succeeds, a pass fills the room it has or empties the queue. */
  lemma PassFillsRoom(w: World, configured: int, launches: string -> bool, now: int)
    requires UniqueIds(w.jobs) && forall id :: launches(id)
    ensures var room := Room(w.jobs, PassCap(w, configured, now));
            Slots(Apply(w, configured, Pass(launches, now)).jobs) ==
              Slots(w.jobs) + Min(|Filter(Waiting, w.jobs)|, room)
  {
    hide Admitted, StartAll, Slots, Room, UniqueIds;
    var cap := PassCap(w, configured, now);
    AdmittedAreWaiting(w.jobs, cap);
    AdmittedAndLeft(w.jobs, cap);
    IdsAt(Admitted(w.jobs, cap));
    StartAllFillsSlots(w.jobs, Ids(Admitted(w.jobs, cap)), launches, now);
  }

  lemma {:induction false} WaitingIdsDiffer(jobs: seq<Job>)
    requires UniqueIds(jobs)
    ensures UniqueIds(Filter(Waiting, jobs))
  {
    if jobs != [] {
      var n := |jobs| - 1;
      WaitingIdsDiffer(jobs[..n]);
      FilterMembers(Waiting, jobs[..n]);
      var f := Filter(Waiting, jobs[..n]);
      forall i | 0 <= i < |f|
        ensures f[i].id != jobs[n].id
      {
        assert f[i] in f;
      }
    }
  }

  lemma QueueIsDuplicateFree(jobs: seq<Job>)
    requires UniqueIds(jobs)
    ensures UniqueIds(Queue(jobs))
  {
    WaitingIdsDiffer(jobs);
    UniqueUnderSorting(Filter(Waiting, jobs));
  }

  lemma {:induction false} UniqueUnderSorting(jobs: seq<Job>)
    requires UniqueIds(jobs)
    ensures UniqueIds(Sort(Older, jobs))
  {
    if jobs != [] {
      UniqueUnderSorting(jobs[1..]);
      forall j | j in Sort(Older, jobs[1..])
        ensures j.id != jobs[0].id
      {
        SortKeepsMembers(Older, jobs[1..], j);
      }
      UniqueUnderInsert(jobs[0], Sort(Older, jobs[1..]));
    }
  }

  lemma {:induction false} UniqueUnderInsert(x: Job, s: seq<Job>)
    requires UniqueIds(s) && forall j | j in s :: j.id != x.id
    ensures UniqueIds(Insert(Older, x, s))
  {
    if s != [] && !Older(x, s[0]) {
      UniqueUnderInsert(x, s[1..]);
      InsertKeeps(Older, x, s[1..]);
      var r := Insert(Older, x, s[1..]);
      forall i | 0 <= i < |r|
        ensures r[i].id != s[0].id
      {
        assert r[i] in r;
      }
    }
  }

  /** A pass sets running, or fails, exactly the jobs it admitted, and touches no other. */
  lemma PassStartsAdmitted(w: World, configured: int, launches: string -> bool, now: int)
    requires UniqueIds(w.jobs)
    ensures StartedFrom(w.jobs, Apply(w, configured, Pass(launches, now)).jobs,
                        Ids(Admitted(w.jobs, PassCap(w, configured, now))), launches)
  {
    hide Admitted, StartAll, StartedFrom;
    AdmittedAreWaiting(w.jobs, PassCap(w, configured, now));
    StartAllStarts(w.jobs, Ids(Admitted(w.jobs, PassCap(w, configured, now))), launches, now);
  }

  /** Ids stay unique along every run. */
  lemma {:induction false} IdsStayUnique(w: World, configured: int, steps: seq<Step>)
    requires UniqueIds(w.jobs)
    ensures UniqueIds(Run(w, configured, steps).jobs)
  {
    hide Apply;
    if steps != [] {
      IdsStayUnique(w, configured, steps[..|steps| - 1]);
      StepKeepsIdsUnique(Run(w, configured, steps[..|steps| - 1]), configured, steps[|steps| - 1]);
    }
  }

  lemma UpsertKeepsUnique(jobs: seq<Job>, j: Job)
    requires UniqueIds(jobs)
    ensures UniqueIds(Upsert(jobs, j))
  {
  }

  lemma StepKeepsIdsUnique(w: World, configured: int, step: Step)
    requires UniqueIds(w.jobs)
    ensures UniqueIds(Apply(w, configured, step).jobs)
  {
    match step
    case Enqueue(id, now) => UpsertKeepsUnique(w.jobs, Fresh(id, Pending, now));
    case Claim(id, now) => UpsertKeepsUnique(w.jobs, Fresh(id, Running, now));
    case Launch(id, now) => UpsertKeepsUnique(w.jobs, Fresh(id, Running, now));
    case Move(id, to, now) =>
    case RateLimited(id, hit) =>
    case Pass(launches, now) =>
      PassStartsAdmitted(w, configured, launches, now);
  }
}
