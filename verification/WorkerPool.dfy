/**
 The bounded-concurrency pool of the remote fan-out
 (packages/h2a-runtime/src/fanout.ts, `mapWithConcurrency`).  Workers share a
 counter and a result list and interleave at their awaits: a worker that is not
 waiting claims the next index, a worker whose task settled records the outcome.
 */
module WorkerPool {
  import opened Common

  /** What a worker is about to do: claim, wait for the task of an index, or nothing. */
  datatype Worker = Ready | Busy(index: nat) | Done

  /** `results[i]` is missing until the task of item `i` settles. */
  datatype Pool<R> = Pool(next: nat, results: seq<Option<R>>, workers: seq<Worker>)

  /** A worker takes its next turn.  The outcome of a task depends on its index only. */
  type Turn = nat

  function Width(limit: int, n: nat): nat {
    Max(1, Min(limit, n))
  }

  function Start<R>(limit: int, n: nat): Pool<R> {
    Pool(0, seq(n, i => None), seq(Width(limit, n), w => Ready))
  }

  predicate Enabled<R>(p: Pool<R>, w: Turn) {
    w < |p.workers| && p.workers[w] != Done
  }

  function Step<R>(p: Pool<R>, outcome: nat -> R, w: Turn): Pool<R> {
    if w >= |p.workers| then p
    else
      match p.workers[w]
      case Done => p
      case Ready =>
        Pool(p.next + 1, p.results, p.workers[w := if p.next >= |p.results| then Done else Busy(p.next)])
      case Busy(i) =>
        p.(results := if i < |p.results| then p.results[i := Some(outcome(i))] else p.results,
           workers := p.workers[w := Ready])
  }

  function Run<R>(p: Pool<R>, outcome: nat -> R, turns: seq<Turn>): Pool<R> {
    if turns == [] then p else Step(Run(p, outcome, turns[..|turns| - 1]), outcome, turns[|turns| - 1])
  }

  /** The indices claimed along a run, in the order of the claims. */
  function Claims<R>(p: Pool<R>, outcome: nat -> R, turns: seq<Turn>): seq<nat> {
    if turns == [] then []
    else
      var rest, w := turns[..|turns| - 1], turns[|turns| - 1];
      var q := Run(p, outcome, rest);
      Claims(p, outcome, rest) +
      if w < |q.workers| && q.workers[w] == Ready && q.next < |q.results| then [q.next] else []
  }

  function CountBusy(workers: seq<Worker>): nat {
    if workers == [] then 0 else CountBusy(workers[..|workers| - 1]) + if workers[|workers| - 1].Busy? then 1 else 0
  }

  function CountOpen(workers: seq<Worker>): nat {
    if workers == [] then 0 else CountOpen(workers[..|workers| - 1]) + if workers[|workers| - 1] != Done then 1 else 0
  }

  // ----- the invariant -----

  ghost predicate Held(workers: seq<Worker>, i: nat) {
    exists w | 0 <= w < |workers| :: workers[w] == Busy(i)
  }

  /** No two workers wait for the same task. */
  ghost predicate Exclusive(workers: seq<Worker>) {
    forall v, w | 0 <= v < w < |workers| && workers[v].Busy? && workers[w].Busy? :: workers[v].index != workers[w].index
  }

  /** Every claimed index is with exactly one worker or has its outcome, and only
      when the items are used up does a worker stop. */
  ghost predicate Inv<R>(p: Pool<R>, outcome: nat -> R) {
    && Exclusive(p.workers)
    && (forall w | 0 <= w < |p.workers| && p.workers[w].Busy? ::
          p.workers[w].index < p.next && p.workers[w].index < |p.results| && p.results[p.workers[w].index].None?)
    && (forall i | 0 <= i < |p.results| && p.results[i].Some? :: i < p.next && p.results[i].value == outcome(i))
    && (forall i | 0 <= i < |p.results| && i < p.next && p.results[i].None? :: Held(p.workers, i))
    && (forall w | 0 <= w < |p.workers| && p.workers[w] == Done :: p.next >= |p.results|)
  }

  lemma HeldAfter(workers: seq<Worker>, w: nat, x: Worker, i: nat)
    requires w < |workers|
    ensures Held(workers, i) && workers[w] != Busy(i) ==> Held(workers[w := x], i)
    ensures x == Busy(i) ==> Held(workers[w := x], i)
  {
    if Held(workers, i) && workers[w] != Busy(i) {
      var v :| 0 <= v < |workers| && workers[v] == Busy(i);
      assert workers[w := x][v] == Busy(i);
    }
    if x == Busy(i) {
      assert workers[w := x][w] == Busy(i);
    }
  }

  lemma ClaimKeeps<R>(p: Pool<R>, outcome: nat -> R, w: Turn)
    requires Inv(p, outcome) && w < |p.workers| && p.workers[w] == Ready
    ensures Inv(Step(p, outcome, w), outcome)
  {
    hide Held;
    var q := Step(p, outcome, w);
    forall i | 0 <= i < |q.results| && i < q.next && q.results[i].None?
      ensures Held(q.workers, i)
    {
      HeldAfter(p.workers, w, q.workers[w], i);
    }
  }

  lemma SettleKeeps<R>(p: Pool<R>, outcome: nat -> R, w: Turn)
    requires Inv(p, outcome) && w < |p.workers| && p.workers[w].Busy?
    ensures Inv(Step(p, outcome, w), outcome)
  {
    hide Held;
    var q := Step(p, outcome, w);
    forall i | 0 <= i < |q.results| && i < q.next && q.results[i].None?
      ensures Held(q.workers, i)
    {
      HeldAfter(p.workers, w, Ready, i);
    }
  }

  lemma StepKeeps<R>(p: Pool<R>, outcome: nat -> R, w: Turn)
    requires Inv(p, outcome)
    ensures Inv(Step(p, outcome, w), outcome)
  {
    hide Inv;
    if w < |p.workers| {
      match p.workers[w]
      case Ready => ClaimKeeps(p, outcome, w);
      case Busy(_) => SettleKeeps(p, outcome, w);
      case Done =>
    }
  }

  lemma {:induction false} RunKeeps<R>(p: Pool<R>, outcome: nat -> R, turns: seq<Turn>)
    requires Inv(p, outcome)
    ensures var q := Run(p, outcome, turns);
            Inv(q, outcome) && |q.workers| == |p.workers| && |q.results| == |p.results|
  {
    hide Inv;
    if turns != [] {
      RunKeeps(p, outcome, turns[..|turns| - 1]);
      StepKeeps(Run(p, outcome, turns[..|turns| - 1]), outcome, turns[|turns| - 1]);
    }
  }

  lemma StartHolds<R>(limit: int, n: nat, outcome: nat -> R)
    ensures Inv<R>(Start(limit, n), outcome)
  {
  }

  // ----- the results over every interleaving -----

  lemma {:induction false} BusyAtMostAll(workers: seq<Worker>)
    ensures CountBusy(workers) <= |workers|
  {
    if workers != [] {
      BusyAtMostAll(workers[..|workers| - 1]);
    }
  }

  /** At most max(1, min(limit, n)) tasks are in flight, no two workers have the same one. */
  lemma InFlightIsBounded<R>(limit: int, n: nat, outcome: nat -> R, turns: seq<Turn>)
    ensures var q := Run(Start<R>(limit, n), outcome, turns);
            && CountBusy(q.workers) <= Width(limit, n)
            && Exclusive(q.workers)
  {
    StartHolds(limit, n, outcome);
    RunKeeps(Start<R>(limit, n), outcome, turns);
    BusyAtMostAll(Run(Start<R>(limit, n), outcome, turns).workers);
  }

  /** The indices are claimed in input order, each exactly once. */
  lemma {:induction false} ClaimedOnceInOrder<R>(limit: int, n: nat, outcome: nat -> R, turns: seq<Turn>)
    ensures var claims := Claims(Start<R>(limit, n), outcome, turns);
            && |claims| == Min(n, Run(Start<R>(limit, n), outcome, turns).next)
            && forall k | 0 <= k < |claims| :: claims[k] == k
  {
    var p := Start<R>(limit, n);
    StartHolds(limit, n, outcome);
    RunKeeps(p, outcome, turns);
    if turns != [] {
      ClaimedOnceInOrder(limit, n, outcome, turns[..|turns| - 1]);
      RunKeeps(p, outcome, turns[..|turns| - 1]);
      hide Inv;
    }
  }

  /** Once every worker has stopped, every item has the outcome of its own task, in
      input order. */
  lemma FinishedIsComplete<R>(limit: int, n: nat, outcome: nat -> R, turns: seq<Turn>)
    requires var q := Run(Start<R>(limit, n), outcome, turns);
             forall w | 0 <= w < |q.workers| :: q.workers[w] == Done
    ensures var results := Run(Start<R>(limit, n), outcome, turns).results;
            |results| == n && forall i | 0 <= i < n :: results[i] == Some(outcome(i))
  {
    StartHolds(limit, n, outcome);
    RunKeeps(Start<R>(limit, n), outcome, turns);
    var q := Run(Start<R>(limit, n), outcome, turns);
    assert q.workers[0] == Done;
    NobodyHolds(q.workers);
  }

  lemma NobodyHolds(workers: seq<Worker>)
    requires forall w | 0 <= w < |workers| :: workers[w] == Done
    ensures forall i: nat :: !Held(workers, i)
  {
  }

  // ----- termination -----

  lemma {:induction false} OpenUpdate(workers: seq<Worker>, w: nat, x: Worker)
    requires w < |workers|
    ensures CountOpen(workers[w := x]) ==
              CountOpen(workers) - (if workers[w] != Done then 1 else 0) + (if x != Done then 1 else 0)
    ensures CountBusy(workers[w := x]) ==
              CountBusy(workers) - (if workers[w].Busy? then 1 else 0) + (if x.Busy? then 1 else 0)
  {
    var n := |workers| - 1;
    if w < n {
      OpenUpdate(workers[..n], w, x);
      assert workers[w := x][..n] == workers[..n][w := x];
    } else {
      assert workers[w := x][..n] == workers[..n];
    }
  }

  /** Turns still needed: two for each item not yet claimed, one for each running task
      and one for each worker that has not stopped. */
  function Work<R>(p: Pool<R>): nat {
    2 * Max(0, |p.results| - p.next) + CountBusy(p.workers) + CountOpen(p.workers)
  }

  /** Every turn of a worker that has not stopped brings the pool one step closer to
      its end, and while there is work left some worker can take a turn. */
  lemma EveryTurnCounts<R>(p: Pool<R>, outcome: nat -> R, w: Turn)
    requires Inv(p, outcome) && p.workers != []
    ensures Enabled(p, w) ==> Work(Step(p, outcome, w)) == Work(p) - 1
    ensures !Enabled(p, w) ==> Step(p, outcome, w) == p
    ensures Work(p) > 0 <==> exists v :: Enabled(p, v)
  {
    if w < |p.workers| {
      OpenUpdate(p.workers, w, Ready);
      OpenUpdate(p.workers, w, Done);
      OpenUpdate(p.workers, w, Busy(p.next));
    }
    SomeoneIsOpen(p.workers);
    if CountOpen(p.workers) > 0 {
      var v :| 0 <= v < |p.workers| && p.workers[v] != Done;
      assert Enabled(p, v);
    } else {
      assert p.workers[0] == Done;
    }
  }

  /** The turns of a run that did something. */
  function Effective<R>(p: Pool<R>, outcome: nat -> R, turns: seq<Turn>): nat {
    if turns == [] then 0
    else
      var rest := turns[..|turns| - 1];
      Effective(p, outcome, rest) + if Enabled(Run(p, outcome, rest), turns[|turns| - 1]) then 1 else 0
  }

  /** However the workers interleave, the pool ends after exactly 2n + width turns:
      no run has more effective turns, and a run with fewer can go on. */
  lemma {:induction false} PoolTerminates<R>(limit: int, n: nat, outcome: nat -> R, turns: seq<Turn>)
    ensures var p := Start<R>(limit, n);
            var q := Run(p, outcome, turns);
            && Effective(p, outcome, turns) + Work(q) == 2 * n + Width(limit, n)
            && (Effective(p, outcome, turns) < 2 * n + Width(limit, n) <==> exists v :: Enabled(q, v))
  {
    hide Inv;
    var p := Start<R>(limit, n);
    StartHolds(limit, n, outcome);
    RunKeeps(p, outcome, turns);
    EveryTurnCounts(Run(p, outcome, turns), outcome, 0);
    if turns == [] {
      AllReady(p.workers);
    } else {
      var rest := turns[..|turns| - 1];
      PoolTerminates(limit, n, outcome, rest);
      RunKeeps(p, outcome, rest);
      EveryTurnCounts(Run(p, outcome, rest), outcome, turns[|turns| - 1]);
    }
  }

  lemma {:induction false} AllReady(workers: seq<Worker>)
    requires forall w | 0 <= w < |workers| :: workers[w] == Ready
    ensures CountOpen(workers) == |workers| && CountBusy(workers) == 0
  {
    if workers != [] {
      AllReady(workers[..|workers| - 1]);
    }
  }

  lemma {:induction false} SomeoneIsOpen(workers: seq<Worker>)
    ensures CountBusy(workers) <= CountOpen(workers)
    ensures CountOpen(workers) > 0 <==> exists v | 0 <= v < |workers| :: workers[v] != Done
  {
    if workers != [] {
      var n := |workers| - 1;
      SomeoneIsOpen(workers[..n]);
      if v :| 0 <= v < |workers| && workers[v] != Done && v < n {
        assert workers[..n][v] != Done;
      }
      if v :| 0 <= v < n && workers[..n][v] != Done {
        assert workers[v] != Done;
      }
    }
  }

  // ----- the shared variables -----

  /** What the worker closures share: the counter, the result list and the workers. */
  class SharedPool<R> {
    var next: nat
    var results: array<Option<R>>
    var workers: array<Worker>

    ghost function State(): Pool<R>
      reads this, results, workers
    {
      Pool(next, results[..], workers[..])
    }

    constructor (limit: int, n: nat)
      ensures State() == Start<R>(limit, n)
      ensures fresh(results) && fresh(workers)
    {
      next := 0;
      results := new Option<R>[n](i => None);
      workers := new Worker[Width(limit, n)](w => Ready);
    }

    /** One turn of worker `w`, up to its next await. */
    method TakeTurn(outcome: nat -> R, w: nat)
      requires w < workers.Length && results != workers as object
      requires workers[w].Busy? ==> workers[w].index < results.Length
      modifies this`next, results, workers
      ensures State() == Step(old(State()), outcome, w)
    {
      match workers[w]
      case Done =>
      case Ready =>
        var i := next;
        next := next + 1;
        workers[w] := if i >= results.Length then Done else Busy(i);
      case Busy(i) =>
        results[i] := Some(outcome(i));
        workers[w] := Ready;
    }
  }
}
