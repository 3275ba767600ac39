/**
 When the attach client gives up reconnecting and how long it waits
 (packages/h2a-runtime/src/attach.ts): two separate counters, one that paces every
 short-lived stream and one that counts only those that delivered nothing.
 */
module Reconnect {
  import opened Common

  datatype Config = Config(minStreamMs: int, baseDelayMs: nat, maxDelayMs: nat, maxShortCycles: nat, maxAttempts: nat)

  /** One stream that ended: how long it lived and whether it showed output. */
  datatype Cycle = Cycle(lifetimeMs: int, progressed: bool)

  datatype Budget = Budget(pacing: nat, futile: nat)
  datatype Verdict = GiveUp | Wait(ms: nat) | Reopen

  predicate Short(c: Config, cyc: Cycle) {
    cyc.lifetimeMs < c.minStreamMs
  }

  predicate Empty(c: Config, cyc: Cycle) {
    Short(c, cyc) && !cyc.progressed
  }

  function Backoff(c: Config, pacing: nat): nat
    requires pacing >= 1
  {
    Min(c.maxDelayMs, c.baseDelayMs * Pow2(pacing - 1))
  }

  function Count(c: Config, b: Budget, cyc: Cycle): Budget {
    if Short(c, cyc) then Budget(b.pacing + 1, if cyc.progressed then 0 else b.futile + 1) else Budget(0, 0)
  }

  function VerdictOf(c: Config, b: Budget, cyc: Cycle): Verdict {
    var next := Count(c, b, cyc);
    if !Short(c, cyc) then Reopen
    else if next.futile > c.maxShortCycles then GiveUp
    else Wait(Backoff(c, next.pacing))
  }

  function BudgetAfter(c: Config, cycles: seq<Cycle>): Budget {
    if cycles == [] then Budget(0, 0) else Count(c, BudgetAfter(c, cycles[..|cycles| - 1]), cycles[|cycles| - 1])
  }

  /** The verdict at the end of cycle `k`. */
  function VerdictAt(c: Config, cycles: seq<Cycle>, k: nat): Verdict
    requires k < |cycles|
  {
    VerdictOf(c, BudgetAfter(c, cycles[..k]), cycles[k])
  }

  /** How many cycles at the end of the run are short, and how many are empty. */
  function TrailingShort(c: Config, cycles: seq<Cycle>): nat {
    if cycles != [] && Short(c, cycles[|cycles| - 1]) then TrailingShort(c, cycles[..|cycles| - 1]) + 1 else 0
  }

  function TrailingEmpty(c: Config, cycles: seq<Cycle>): nat {
    if cycles != [] && Empty(c, cycles[|cycles| - 1]) then TrailingEmpty(c, cycles[..|cycles| - 1]) + 1 else 0
  }

  lemma {:induction false} CountersAreStreaks(c: Config, cycles: seq<Cycle>)
    ensures BudgetAfter(c, cycles) == Budget(TrailingShort(c, cycles), TrailingEmpty(c, cycles))
  {
    if cycles != [] {
      CountersAreStreaks(c, cycles[..|cycles| - 1]);
    }
  }

  /** Cycles `k - n + 1` to `k` were all short and empty. */
  ghost predicate EmptyStreak(c: Config, cycles: seq<Cycle>, k: nat, n: nat) {
    n <= k + 1 <= |cycles| && forall i | k + 1 - n <= i <= k :: Empty(c, cycles[i])
  }

  lemma {:induction false} StreakLength(c: Config, cycles: seq<Cycle>, n: nat)
    requires cycles != []
    ensures TrailingEmpty(c, cycles) >= n <==> EmptyStreak(c, cycles, |cycles| - 1, n)
  {
    var last := |cycles| - 1;
    if n == 0 {
    } else if Empty(c, cycles[last]) {
      if last == 0 {
        assert cycles[..0] == [];
        assert TrailingEmpty(c, cycles) == 1;
      } else {
        StreakLength(c, cycles[..last], n - 1);
        assert forall i | 0 <= i < last :: cycles[..last][i] == cycles[i];
      }
    } else {
      assert TrailingEmpty(c, cycles) == 0;
    }
  }

  /** The client gives up after a cycle exactly when that cycle and the
      `maxShortCycles` before it were all short and empty; a short stream that showed
      output never counts towards it. */
  lemma GivesUpIff(c: Config, cycles: seq<Cycle>, k: nat)
    requires k < |cycles|
    ensures VerdictAt(c, cycles, k) == GiveUp <==> EmptyStreak(c, cycles, k, c.maxShortCycles + 1)
  {
    var upTo := cycles[..k + 1];
    assert upTo[..k] == cycles[..k];
    CountersAreStreaks(c, upTo);
    StreakLength(c, upTo, c.maxShortCycles + 1);
    assert forall i | 0 <= i <= k :: upTo[i] == cycles[i];
  }

  lemma {:induction false} StreakIsShort(c: Config, cycles: seq<Cycle>, n: nat)
    requires n <= |cycles| && forall i | |cycles| - n <= i < |cycles| :: Short(c, cycles[i])
    ensures TrailingShort(c, cycles) >= n
  {
    if n > 0 {
      StreakIsShort(c, cycles[..|cycles| - 1], n - 1);
    }
  }

  lemma Scaled(base: nat, p: nat, q: nat)
    requires p <= q
    ensures base * p <= base * q
  {
  }

  /** After `n` short cycles in a row, whether or not they showed output, the client
      either gives up or waits at least as long as the n-th step of the schedule. */
  lemma ShortCyclesArePaced(c: Config, cycles: seq<Cycle>, k: nat, n: nat)
    requires 1 <= n <= k + 1 <= |cycles| && forall i | k + 1 - n <= i <= k :: Short(c, cycles[i])
    ensures VerdictAt(c, cycles, k) == GiveUp
            || (VerdictAt(c, cycles, k).Wait? && VerdictAt(c, cycles, k).ms >= Backoff(c, n))
  {
    hide Pow2;
    var upTo := cycles[..k + 1];
    assert upTo[..k] == cycles[..k];
    CountersAreStreaks(c, upTo);
    StreakIsShort(c, upTo, n);
    var pacing := TrailingShort(c, upTo);
    Pow2Grows(n - 1, pacing - 1);
    Scaled(c.baseDelayMs, Pow2(n - 1), Pow2(pacing - 1));
  }

  /** The verdict on a cycle, from the whole run: a stream that lived is reopened at once,
      a full streak of empty ones ends the client, and every other short one waits for
      the step of the schedule that the current run of short streams has reached. */
  lemma VerdictsAreStreaks(c: Config, cycles: seq<Cycle>, k: nat)
    requires k < |cycles|
    ensures VerdictAt(c, cycles, k) ==
              if !Short(c, cycles[k]) then Reopen
              else if EmptyStreak(c, cycles, k, c.maxShortCycles + 1) then GiveUp
              else Wait(Min(c.maxDelayMs, c.baseDelayMs * Pow2(TrailingShort(c, cycles[..k]))))
  {
    hide Pow2;
    assert cycles[..k + 1][..k] == cycles[..k];
    CountersAreStreaks(c, cycles[..k]);
    GivesUpIff(c, cycles, k);
  }

  // ----- the loops -----

  /** Runs through the ended streams until one makes the client give up. */
  method Pace(c: Config, cycles: seq<Cycle>) returns (verdicts: seq<Verdict>)
    ensures |verdicts| <= |cycles| && forall k | 0 <= k < |verdicts| :: verdicts[k] == VerdictAt(c, cycles, k)
    ensures forall k | 0 <= k < |verdicts| - 1 :: verdicts[k] != GiveUp
    ensures |verdicts| == |cycles| || (verdicts != [] && verdicts[|verdicts| - 1] == GiveUp)
  {
    var pacingStreak, futileCycles := 0, 0;
    verdicts := [];
    for k := 0 to |cycles|
      invariant |verdicts| == k
      invariant Budget(pacingStreak, futileCycles) == BudgetAfter(c, cycles[..k])
      invariant forall j | 0 <= j < k :: verdicts[j] == VerdictAt(c, cycles, j) && verdicts[j] != GiveUp
    {
      assert cycles[..k + 1][..k] == cycles[..k];
      if cycles[k].lifetimeMs < c.minStreamMs {
        pacingStreak := pacingStreak + 1;
        if cycles[k].progressed {
          futileCycles := 0;
        } else {
          futileCycles := futileCycles + 1;
        }
        if futileCycles > c.maxShortCycles {
          verdicts := verdicts + [GiveUp];
          return;
        }
        verdicts := verdicts + [Wait(Backoff(c, pacingStreak))];
      } else {
        pacingStreak, futileCycles := 0, 0;
        verdicts := verdicts + [Reopen];
      }
    }
  }

  datatype Attempt = Opened | Missing | Failed
  datatype Outcome = Reopened(attempt: nat) | SessionEnded(attempt: nat) | Lost

  /** Reopening: the first attempt that opens or finds the session gone decides, within
      the allowed number of attempts. */
  method ReopenStream(c: Config, attempts: nat -> Attempt) returns (r: Outcome)
    ensures r == Lost <==> forall k: nat | k < c.maxAttempts :: attempts(k) == Failed
    ensures !r.Lost? ==> r.attempt < c.maxAttempts && forall k: nat | k < r.attempt :: attempts(k) == Failed
    ensures r.Reopened? ==> attempts(r.attempt) == Opened
    ensures r.SessionEnded? ==> attempts(r.attempt) == Missing
  {
    for k := 0 to c.maxAttempts
      invariant forall j: nat | j < k :: attempts(j) == Failed
    {
      match attempts(k)
      case Missing => return SessionEnded(k);
      case Opened => return Reopened(k);
      case Failed =>
    }
    return Lost;
  }
}
