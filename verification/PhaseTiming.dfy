/** How many captures, and how much time, the rounds of a phase can take together. */
module PhaseTiming {
  import opened Readiness
  import opened PaneDriver

  /** How many captures from number `a` up to, but not including, `b` show another pane than the capture before
      them. */
  function PaneChanges(screens: nat -> string, a: nat, b: nat): nat {
    if b <= a + 1 then 0
    else PaneChanges(screens, a, b - 1) + (if screens(b - 1) != screens(b - 2) then 1 else 0)
  }

  lemma {:induction false} ChangesSplit(screens: nat -> string, a: nat, b: nat, c: nat)
    requires a <= b <= c
    ensures PaneChanges(screens, a, b) + PaneChanges(screens, b, c) <= PaneChanges(screens, a, c)
    decreases c
  {
    if c > b { ChangesSplit(screens, a, b, c - 1); }
  }

  lemma {:induction false} PollsShowChanges(polls: seq<Event>, screens: nat -> string, first: nat)
    requires PollsOnly(polls) && Shows(polls, screens, first)
    ensures Changes(polls) == PaneChanges(screens, first, first + |polls|)
    decreases |polls|
  {
    if |polls| > 1 {
      var n := |polls| - 1;
      assert polls[n].pane == screens(first + n) && polls[n - 1].pane == screens(first + n - 1);
      PollsShowChanges(polls[..n], screens, first);
    }
  }

  // ----- captures

  /** At most ten captures for each pane change, and twelve for each round. */
  predicate FewLooks(screens: nat -> string, a: nat, b: nat, rounds: nat) {
    a <= b <= a + 10 * PaneChanges(screens, a, b) + 12 * rounds
  }

  lemma LooksAdd(screens: nat -> string, a: nat, b: nat, c: nat, m: nat, n: nat)
    requires FewLooks(screens, a, b, m) && FewLooks(screens, b, c, n)
    ensures FewLooks(screens, a, c, m + n)
  {
    ChangesSplit(screens, a, b, c);
  }

  /** The intervals between the polls of one wait: one budget at its start and one after each change. */
  function Allowance(changes: nat, budget: real): nat
    requires budget > 0.0
  {
    changes * Slices(budget, PANE_POLL_SECONDS) + Slices(budget, PANE_POLL_SECONDS)
  }

  lemma AllowanceGrows(m: nat, n: nat, budget: real)
    requires m <= n && budget > 0.0
    ensures Allowance(m, budget) <= Allowance(n, budget)
  {
    ProductGrows(m, n, Slices(budget, PANE_POLL_SECONDS));
  }

  lemma ProductGrows(m: nat, n: nat, k: nat)
    requires m <= n
    ensures m * k <= n * k
  {
  }

  /** A wait and one capture after it, within the default budget. */
  lemma RoundLooks(screens: nat -> string, a: nat, b: nat, c: nat, budget: real)
    requires 0.0 < budget <= POLL_SECONDS
    requires a <= b <= a + Allowance(PaneChanges(screens, a, b), budget) + 1 && b <= c <= b + 1
    ensures FewLooks(screens, a, c, 1)
  {
    var changes := PaneChanges(screens, a, b);
    ChangesSplit(screens, a, b, c);
    SlicesCover(10, budget, PANE_POLL_SECONDS);
    ProductGrows(Slices(budget, PANE_POLL_SECONDS), 10, changes);
  }

  // ----- time

  /** `now` is a whole number of poll intervals after `start`, and at most `most` of them. */
  ghost predicate Paced(start: real, now: real, most: nat) {
    exists k: nat :: k <= most && now == Tick(start, PANE_POLL_SECONDS, k)
  }

  lemma {:induction false} TicksAdd(start: real, m: nat, n: nat)
    ensures Tick(Tick(start, PANE_POLL_SECONDS, m), PANE_POLL_SECONDS, n) == Tick(start, PANE_POLL_SECONDS, m + n)
    decreases n
  {
    if n > 0 { TicksAdd(start, m, n - 1); }
  }

  /** A budget of `m` intervals has `m` slices. */
  lemma WholeSlices(budget: real, m: nat)
    requires budget > 0.0 && budget == (m as real) * PANE_POLL_SECONDS
    ensures Slices(budget, PANE_POLL_SECONDS) == m
  {
    SlicesCover(m, budget, PANE_POLL_SECONDS);
    SlicesCover(m - 1, budget, PANE_POLL_SECONDS);
  }

  /** The budget of a round: the default one, or what is left until the deadline. */
  function RoundBudget(remaining: real): real {
    if POLL_SECONDS <= remaining then POLL_SECONDS else remaining
  }

  lemma RoundSlices(start: real, k: nat)
    requires k < 120
    ensures var remaining := start + TIMEOUT_SECONDS - Tick(start, PANE_POLL_SECONDS, k);
            && remaining > 0.0
            && Slices(RoundBudget(remaining), PANE_POLL_SECONDS) == if k <= 110 then 10 else 120 - k
  {
    TickTime(start, PANE_POLL_SECONDS, k);
    var m := if k <= 110 then 10 else 120 - k;
    WholeSlices(RoundBudget(start + TIMEOUT_SECONDS - Tick(start, PANE_POLL_SECONDS, k)), m);
  }

  /** A round that starts before the deadline ends at most five seconds for each of its pane changes after it. */
  lemma RoundPace(start: real, t: real, now: real, before: nat, changes: nat)
    requires Paced(start, t, before) && t < start + TIMEOUT_SECONDS
    requires Paced(t, now, Allowance(changes, RoundBudget(start + TIMEOUT_SECONDS - t)))
    ensures Paced(start, now, 120 + 10 * changes)
  {
    var budget := RoundBudget(start + TIMEOUT_SECONDS - t);
    var k: nat :| k <= before && t == Tick(start, PANE_POLL_SECONDS, k);
    var j: nat :| j <= Allowance(changes, budget) && now == Tick(t, PANE_POLL_SECONDS, j);
    TickTime(start, PANE_POLL_SECONDS, k);
    RoundSlices(start, k);
    ProductGrows(Slices(budget, PANE_POLL_SECONDS), 10, changes);
    TicksAdd(start, k, j);
  }

  lemma PaceGrows(start: real, now: real, m: nat, n: nat)
    requires Paced(start, now, m) && m <= n
    ensures Paced(start, now, n)
  {
    var k: nat :| k <= m && now == Tick(start, PANE_POLL_SECONDS, k);
    assert k <= n;
  }

  /** In seconds. */
  lemma PaceTime(start: real, now: real, changes: nat)
    requires Paced(start, now, 120 + 10 * changes)
    ensures now - start <= TIMEOUT_SECONDS + 5.0 * changes as real
  {
    var k: nat :| k <= 120 + 10 * changes && now == Tick(start, PANE_POLL_SECONDS, k);
    TickTime(start, PANE_POLL_SECONDS, k);
    assert k as real <= 120.0 + 10.0 * changes as real;
  }

  // ----- what a wait, a round and a phase cost

  /** A wait over the captures from `a` to `b`; `timed` when it ended on a punctual terminal. */
  ghost predicate WaitCost(screens: nat -> string, a: nat, b: nat, budget: real, start: real, now: real, timed: bool)
    requires budget > 0.0
  {
    var most := Allowance(PaneChanges(screens, a, b), budget);
    a <= b <= a + most + 1 && (timed ==> Paced(start, now, most))
  }

  /** A wait and at most one more capture. */
  ghost predicate RoundCost(screens: nat -> string, a: nat, b: nat, budget: real, start: real, now: real, timed: bool)
    requires budget > 0.0
  {
    && (budget <= POLL_SECONDS ==> FewLooks(screens, a, b, 1))
    && (timed ==> a <= b && Paced(start, now, Allowance(PaneChanges(screens, a, b), budget)))
  }

  /** Some rounds, each started before the deadline. */
  ghost predicate PhaseCost(screens: nat -> string, a: nat, b: nat, rounds: nat, start: real, now: real, timed: bool) {
    FewLooks(screens, a, b, rounds) && (timed ==> Paced(start, now, 120 + 10 * PaneChanges(screens, a, b)))
  }

  /** The polls of a wait. */
  lemma PollsCost(outcome: WaitOutcome, polls: seq<Event>, marker: string, budget: real, screens: nat -> string,
                  a: nat, start: real, now: real, timed: bool)
    requires budget > 0.0 && PollsOnly(polls) && Shows(polls, screens, a)
    requires WaitPolls(outcome, polls, marker, budget, PANE_POLL_SECONDS)
    requires timed ==> polls != [] && OnTime(polls, start, PANE_POLL_SECONDS) && now == polls[|polls| - 1].at
    ensures WaitCost(screens, a, a + |polls|, budget, start, now, timed)
  {
    PollsShowChanges(polls, screens, a);
    if timed {
      var n := |polls| - 1;
      assert now == Tick(start, PANE_POLL_SECONDS, n);
      assert n <= Allowance(Changes(polls), budget);
    }
  }

  lemma WaitThenLook(screens: nat -> string, a: nat, b: nat, c: nat, budget: real, start: real, now: real, later: real, timed: bool)
    requires budget > 0.0 && WaitCost(screens, a, b, budget, start, now, timed)
    requires b <= c <= b + 1 && (timed ==> later == now)
    ensures RoundCost(screens, a, c, budget, start, later, timed)
  {
    if budget <= POLL_SECONDS { RoundLooks(screens, a, b, c, budget); }
    if timed {
      ChangesSplit(screens, a, b, c);
      var m, n := PaneChanges(screens, a, b), PaneChanges(screens, a, c);
      AllowanceGrows(m, n, budget);
      PaceGrows(start, now, Allowance(m, budget), Allowance(n, budget));
    }
  }

  lemma NoCost(screens: nat -> string, a: nat, start: real, timed: bool)
    ensures PhaseCost(screens, a, a, 0, start, start, timed)
  {
    assert start == Tick(start, PANE_POLL_SECONDS, 0);
  }

  lemma CostsAdd(screens: nat -> string, a: nat, b: nat, c: nat, rounds: nat, start: real, t: real, now: real,
                 punctual: bool, timed: bool)
    requires PhaseCost(screens, a, b, rounds, start, t, punctual) && (timed ==> punctual)
    requires t < start + TIMEOUT_SECONDS
    requires RoundCost(screens, b, c, RoundBudget(start + TIMEOUT_SECONDS - t), t, now, timed)
    ensures PhaseCost(screens, a, c, rounds + 1, start, now, timed)
  {
    LooksAdd(screens, a, b, c, rounds, 1);
    if timed {
      var m, n := PaneChanges(screens, a, b), PaneChanges(screens, b, c);
      RoundPace(start, t, now, 120 + 10 * m, n);
      ChangesSplit(screens, a, b, c);
      PaceGrows(start, now, 120 + 10 * n, 120 + 10 * PaneChanges(screens, a, c));
    }
  }

  /** What a phase of at most twelve rounds costs, in captures and seconds. */
  lemma PhaseBound(screens: nat -> string, a: nat, b: nat, rounds: nat, start: real, now: real, timed: bool)
    requires PhaseCost(screens, a, b, rounds, start, now, timed) && rounds <= 12
    ensures b - a <= 10 * PaneChanges(screens, a, b) + 144
    ensures timed ==> now - start <= TIMEOUT_SECONDS + 5.0 * PaneChanges(screens, a, b) as real
  {
    if timed { PaceTime(start, now, PaneChanges(screens, a, b)); }
  }
}
