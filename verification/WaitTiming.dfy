/** How long the progress-based wait lasts on a terminal whose operations take no time of their own: what the
    idle budget bounds, and what it does not. */
module WaitTiming {
  import opened Text
  import opened Readiness
  import opened PaneDriver

  /** The index of the last poll whose pane differs from the one before; 0 when there is none. */
  function LastChange(polls: seq<Event>): (n: nat)
    requires PollsOnly(polls)
  {
    if |polls| <= 1 then 0
    else if polls[|polls| - 1].pane != polls[|polls| - 2].pane then |polls| - 1
    else LastChange(polls[..|polls| - 1])
  }

  /** The pane is steady from the last change on, and from no earlier poll. */
  lemma {:induction false} LastChangeStartsStretch(polls: seq<Event>, q: int)
    requires PollsOnly(polls) && polls != []
    ensures LastChange(polls) < |polls| && SteadyFrom(polls, LastChange(polls))
    ensures SteadyFrom(polls, q) ==> LastChange(polls) <= q
    decreases |polls|
  {
    var n := |polls| - 1;
    if n > 0 && polls[n].pane == polls[n - 1].pane {
      var front := polls[..n];
      if 0 <= q < n && SteadyFrom(polls, q) {
        assert forall j | q <= j < n :: front[j] == polls[j];
        assert SteadyFrom(front, q);
      }
      LastChangeStartsStretch(front, q);
      assert forall j | LastChange(front) <= j < n :: front[j] == polls[j];
    } else if n > 0 && SteadyFrom(polls, q) {
      ChangeBreaks(polls, n, q, n);
    }
  }

  lemma Elapsed(polls: seq<Event>, start: real, poll: real, a: nat, b: nat)
    requires PollsOnly(polls) && OnTime(polls, start, poll) && a <= b < |polls|
    ensures polls[b].at - polls[a].at == ((b - a) as real) * poll
  {
    TickTime(start, poll, a);
    TickTime(start, poll, b);
    Distribute(b as real, a as real, poll);
    assert (b - a) as real == b as real - a as real;
  }

  /** A steady stretch of `n` intervals lasts the budget exactly when `n` reaches the slices. */
  lemma StretchLasts(polls: seq<Event>, start: real, budget: real, poll: real, a: nat, b: nat)
    requires budget > 0.0 && poll > 0.0
    requires PollsOnly(polls) && OnTime(polls, start, poll) && a <= b < |polls|
    ensures polls[b].at - polls[a].at >= budget <==> b - a >= Slices(budget, poll)
  {
    Elapsed(polls, start, poll, a, b);
    SlicesCover(b - a, budget, poll);
  }

  /** A steady stretch is too short for the budget one poll before the end of an idle wait ... */
  lemma IdleNotEarlier(polls: seq<Event>, marker: string, start: real, budget: real, poll: real, c: nat)
    requires budget > 0.0 && poll > 0.0 && PollsOnly(polls) && OnTime(polls, start, poll)
    requires WaitPolls(Idle, polls, marker, budget, poll) && SteadyFrom(polls, c) && c < |polls| - 1
    ensures |polls| - 2 - c < Slices(budget, poll)
  {
    var n := |polls| - 1;
    assert Patient(polls, budget, n);
    assert Steady(polls, c, n - 1);
    StretchLasts(polls, start, budget, poll, c, n - 1);
  }

  /** ... and long enough at its end. */
  lemma IdleLongEnough(polls: seq<Event>, marker: string, start: real, budget: real, poll: real)
    requires budget > 0.0 && poll > 0.0 && PollsOnly(polls) && OnTime(polls, start, poll)
    requires WaitPolls(Idle, polls, marker, budget, poll)
    ensures |polls| - 1 >= LastChange(polls) + Slices(budget, poll)
  {
    var n := |polls| - 1;
    var q :| SteadyFrom(polls, q) && polls[n].at - polls[q].at >= budget;
    LastChangeStartsStretch(polls, q);
    StretchLasts(polls, start, budget, poll, q, n);
  }

  /** A wait that gave up ended exactly one budget, in whole intervals, after the last pane change. */
  lemma IdleWaitLength(polls: seq<Event>, marker: string, start: real, budget: real, poll: real)
    requires budget > 0.0 && poll > 0.0 && PollsOnly(polls) && OnTime(polls, start, poll)
    requires WaitPolls(Idle, polls, marker, budget, poll)
    ensures |polls| - 1 == LastChange(polls) + Slices(budget, poll)
  {
    var c := LastChange(polls);
    IdleLongEnough(polls, marker, start, budget, poll);
    LastChangeStartsStretch(polls, c);
    IdleNotEarlier(polls, marker, start, budget, poll, c);
  }

  /** It ends within a limit if and only if the last pane change comes early enough before the limit. */
  lemma IdleWaitWithin(polls: seq<Event>, marker: string, start: real, budget: real, poll: real, limit: real)
    requires budget > 0.0 && poll > 0.0 && PollsOnly(polls) && OnTime(polls, start, poll)
    requires WaitPolls(Idle, polls, marker, budget, poll)
    ensures polls[|polls| - 1].at - polls[0].at <= limit
       <==> LastChange(polls) as real <= limit / poll - Slices(budget, poll) as real
  {
    IdleWaitLength(polls, marker, start, budget, poll);
    LengthWithin(polls, start, poll, limit, LastChange(polls), Slices(budget, poll));
  }

  lemma LengthWithin(polls: seq<Event>, start: real, poll: real, limit: real, change: nat, slices: nat)
    requires poll > 0.0 && PollsOnly(polls) && OnTime(polls, start, poll) && |polls| - 1 == change + slices
    ensures polls[|polls| - 1].at - polls[0].at <= limit <==> change as real <= limit / poll - slices as real
  {
    var n := |polls| - 1;
    Elapsed(polls, start, poll, 0, n);
    WithinLimit(n, change, slices, poll, limit);
  }

  lemma AtMostRatio(x: real, limit: real, poll: real)
    requires poll > 0.0
    ensures x * poll <= limit <==> x <= limit / poll
  {
    var q := limit / poll;
    RatioTimes(limit, poll);
    Distribute(x, q, poll);
    var d := x - q;
    ProductSign(d, poll);
    assert d * poll == x * poll - limit;
  }

  lemma WithinLimit(n: nat, change: nat, slices: nat, poll: real, limit: real)
    requires n == change + slices && poll > 0.0
    ensures (n as real) * poll <= limit <==> change as real <= limit / poll - slices as real
  {
    AtMostRatio(n as real, limit, poll);
    assert n as real == change as real + slices as real;
  }

  /** The screens are the same from capture `a` on, for `n` more captures. */
  predicate Unchanging(screens: nat -> string, a: nat, n: nat) {
    forall j | a <= j <= a + n :: screens(j) == screens(a)
  }

  lemma SteadyIffUnchanging(polls: seq<Event>, screens: nat -> string, first: nat, a: nat, n: nat)
    requires PollsOnly(polls) && Shows(polls, screens, first) && a + n < |polls|
    ensures Steady(polls, a, a + n) <==> Unchanging(screens, first + a, n)
  {
    assert forall j | a <= j <= a + n :: polls[j].pane == screens(first + j);
    if Steady(polls, a, a + n) {
      forall j | first + a <= j <= first + a + n ensures screens(j) == screens(first + a) {
        assert polls[j - first].pane == polls[a].pane;
      }
    }
    if Unchanging(screens, first + a, n) {
      forall j | a <= j <= a + n ensures polls[j].pane == polls[a].pane {
        assert screens(first + j) == screens(first + a);
      }
    }
  }

  /** Within `captures` captures from `first` on, some stretch of `n` intervals shows no change. */
  predicate SettlesWithin(screens: nat -> string, first: nat, captures: nat, n: nat) {
    exists a | first <= a < first + captures :: a + n < first + captures && Unchanging(screens, a, n)
  }

  lemma IdleSettles(polls: seq<Event>, marker: string, start: real, budget: real, poll: real,
                    screens: nat -> string, first: nat, captures: nat)
    requires budget > 0.0 && poll > 0.0 && PollsOnly(polls) && OnTime(polls, start, poll)
    requires WaitPolls(Idle, polls, marker, budget, poll) && Shows(polls, screens, first) && |polls| <= captures
    ensures SettlesWithin(screens, first, captures, Slices(budget, poll))
  {
    IdleWaitLength(polls, marker, start, budget, poll);
    var c := LastChange(polls);
    LastChangeStartsStretch(polls, c);
    SteadyIffUnchanging(polls, screens, first, c, Slices(budget, poll));
    assert Unchanging(screens, first + c, Slices(budget, poll));
  }

  lemma PatientNeverSettles(polls: seq<Event>, start: real, budget: real, poll: real, screens: nat -> string, first: nat)
    requires budget > 0.0 && poll > 0.0 && PollsOnly(polls) && OnTime(polls, start, poll)
    requires Patient(polls, budget, |polls|) && Shows(polls, screens, first)
    ensures !SettlesWithin(screens, first, |polls|, Slices(budget, poll))
  {
    var n := Slices(budget, poll);
    forall a | first <= a < first + |polls| && a + n < first + |polls| ensures !Unchanging(screens, a, n) {
      SteadyIffUnchanging(polls, screens, first, a - first, n);
      StretchLasts(polls, start, budget, poll, a - first, a - first + n);
    }
  }

  /** Observed for `captures` captures, a wait that never sees its marker gives up if and only if the screens
      go unchanged for one budget; otherwise it is still waiting. */
  lemma GivesUpIffSettles(outcome: WaitOutcome, polls: seq<Event>, marker: string, start: real, budget: real, poll: real,
                          screens: nat -> string, first: nat, captures: nat)
    requires budget > 0.0 && poll > 0.0 && PollsOnly(polls) && OnTime(polls, start, poll)
    requires outcome != Seen && WaitPolls(outcome, polls, marker, budget, poll)
    requires Shows(polls, screens, first) && |polls| <= captures && (outcome == Cut ==> |polls| == captures)
    ensures outcome == Idle <==> SettlesWithin(screens, first, captures, Slices(budget, poll))
  {
    if outcome == Idle {
      IdleSettles(polls, marker, start, budget, poll, screens, first, captures);
    } else {
      PatientNeverSettles(polls, start, budget, poll, screens, first);
    }
  }

  // ----- no time limit

  /** Two screens in turn up to capture `n`, then no change any more. */
  ghost predicate Flickers(screens: nat -> string, n: nat) {
    forall j: nat :: screens(j) == if j < n && j % 2 == 1 then "a" else "b"
  }

  lemma FlickerSettles(screens: nat -> string, n: nat, a: nat, k: nat)
    requires Flickers(screens, n) && n % 2 == 0 && n > 0
    ensures Unchanging(screens, n, k)
    ensures k > 0 && Unchanging(screens, a, k) ==> n - 1 <= a
  {
    if k > 0 && Unchanging(screens, a, k) && a < n {
      assert screens(a + 1) == screens(a);
    }
  }

  lemma NeverSeen(outcome: WaitOutcome, polls: seq<Event>, marker: string, budget: real, poll: real,
                  screens: nat -> string, n: nat)
    requires budget > 0.0 && poll > 0.0 && PollsOnly(polls) && WaitPolls(outcome, polls, marker, budget, poll)
    requires Shows(polls, screens, 0) && Flickers(screens, n) && |marker| >= 2
    ensures outcome != Seen
  {
    forall i | 0 <= i < |polls| ensures !Contains(polls[i].pane, marker) {
      assert polls[i].pane == screens(i);
    }
  }

  lemma TenSlices()
    ensures Slices(POLL_SECONDS, PANE_POLL_SECONDS) == 10
  {
    assert POLL_SECONDS / PANE_POLL_SECONDS == 10.0;
  }

  lemma ChangesLate(polls: seq<Event>, screens: nat -> string, n: nat, c: nat)
    requires Flickers(screens, n) && n % 2 == 0 && n > 0
    requires PollsOnly(polls) && Shows(polls, screens, 0) && c + 10 < |polls| && Steady(polls, c, c + 10)
    ensures n - 1 <= c
  {
    SteadyIffUnchanging(polls, screens, 0, c, 10);
    FlickerSettles(screens, n, c, 10);
  }

  lemma LateTick(limit: nat, n: nat)
    requires n >= 2 * limit + 11
    ensures Tick(0.0, PANE_POLL_SECONDS, n) > limit as real
  {
    TickTime(0.0, PANE_POLL_SECONDS, n);
    assert n as real >= 2.0 * (limit as real) + 11.0;
  }

  lemma LastsBeyond(polls: seq<Event>, screens: nat -> string, limit: nat, c: nat)
    requires Flickers(screens, 2 * limit + 2) && PollsOnly(polls) && Shows(polls, screens, 0)
    requires OnTime(polls, 0.0, PANE_POLL_SECONDS) && |polls| == c + 11 && Steady(polls, c, c + 10)
    ensures polls[|polls| - 1].at > limit as real
  {
    ChangesLate(polls, screens, 2 * limit + 2, c);
    LateTick(limit, c + 10);
  }

  lemma LastStretch(polls: seq<Event>, marker: string) returns (c: nat)
    requires PollsOnly(polls) && OnTime(polls, 0.0, PANE_POLL_SECONDS)
    requires WaitPolls(Idle, polls, marker, POLL_SECONDS, PANE_POLL_SECONDS)
    ensures |polls| == c + 11 && Steady(polls, c, c + 10)
  {
    c := LastChange(polls);
    TenSlices();
    IdleWaitLength(polls, marker, 0.0, POLL_SECONDS, PANE_POLL_SECONDS);
    LastChangeStartsStretch(polls, c);
  }

  lemma LastsAndGivesUp(outcome: WaitOutcome, polls: seq<Event>, screens: nat -> string, limit: nat)
    requires Flickers(screens, 2 * limit + 2) && PollsOnly(polls) && Shows(polls, screens, 0)
    requires OnTime(polls, 0.0, PANE_POLL_SECONDS)
    requires WaitPolls(outcome, polls, INPUT_READY_MARKER, POLL_SECONDS, PANE_POLL_SECONDS)
    requires |polls| <= 2 * limit + 13 && (outcome == Cut ==> |polls| == 2 * limit + 13)
    ensures outcome == Idle && polls[|polls| - 1].at > limit as real
  {
    var n := 2 * limit + 2;
    NeverSeen(outcome, polls, INPUT_READY_MARKER, POLL_SECONDS, PANE_POLL_SECONDS, screens, n);
    TenSlices();
    FlickerSettles(screens, n, n, 10);
    assert SettlesWithin(screens, 0, n + 11, 10);
    GivesUpIffSettles(outcome, polls, INPUT_READY_MARKER, 0.0, POLL_SECONDS, PANE_POLL_SECONDS, screens, 0, n + 11);
    var c := LastStretch(polls, INPUT_READY_MARKER);
    LastsBeyond(polls, screens, limit, c);
  }

  /** However long the limit, there are screens on which the wait for input-ready lasts longer than it and
      still gives up without having seen the marker. */
  method OutlastsAnyLimit(limit: nat) returns (found: bool, elapsed: real)
    ensures !found && elapsed > limit as real
  {
    var n := 2 * limit + 2;
    var screens := (j: nat) => if j < n && j % 2 == 1 then "a" else "b";
    assert Flickers(screens, n);
    var terminal := new Terminal(screens, _ => 0.0, 0.0, n + 11);
    var outcome, polls := terminal.WaitForPaneMarker(INPUT_READY_MARKER, POLL_SECONDS, PANE_POLL_SECONDS);
    LastsAndGivesUp(outcome, polls, screens, limit);
    found := outcome == Seen;
    elapsed := terminal.now;
  }
}
