/** The terminal seen by the launcher: an adversarial pane and clock, and the progress-based wait.

    What each capture shows and how long each operation takes are arbitrary functions.  A terminal is
    observed for `left` more captures; a run that needs more is `Cut` there.  Since `left` is arbitrary,
    what holds of every cut run holds of every finite prefix of every real run, also of waits that never
    return. */
module PaneDriver {
  import opened Basics
  import opened Text

  datatype Event =
    | NewSession
    | ProbeDb(ok: bool)
    | ProbeVault(ok: bool)
    | StartClaude
    | Poll(pane: string, at: real)                            // a capture inside a wait
    | Waited(marker: string, budget: real, found: bool)       // the end of a wait
    | Capture(pane: string)                                   // a single capture
    | Enter
    | Escape
    | LoadBuffer(text: string)
    | Paste(text: string)
    | Warned(about: string)
    | Diagnostic(cause: string, written: bool)

  datatype WaitOutcome = Seen | Idle | Cut

  // ----- arithmetic of the polling grid

  /** The least integer not below `x`. */
  function Ceiling(x: real): (n: int)
    ensures (n - 1) as real < x <= n as real
  {
    -((-x).Floor)
  }

  /** The idle budget divided by the poll interval, rounded up. */
  function Slices(budget: real, poll: real): (n: nat)
    requires budget > 0.0 && poll > 0.0
    ensures n >= 1
  {
    RatioPositive(budget, poll);
    Ceiling(budget / poll)
  }

  lemma ProductSign(a: real, b: real)
    requires b > 0.0
    ensures a > 0.0 ==> a * b > 0.0
    ensures a < 0.0 ==> a * b < 0.0
  {
  }

  lemma RatioTimes(budget: real, poll: real)
    requires poll > 0.0
    ensures (budget / poll) * poll == budget
  {
  }

  lemma RatioPositive(budget: real, poll: real)
    requires budget > 0.0 && poll > 0.0
    ensures budget / poll > 0.0
  {
    var q := budget / poll;
    RatioTimes(budget, poll);
    if q < 0.0 { ProductSign(q, poll); }
  }

  lemma Distribute(a: real, b: real, c: real)
    ensures (a - b) * c == a * c - b * c
  {
  }

  /** `x` intervals reach the budget exactly when `x` reaches their ratio. */
  lemma RatioOrder(x: real, budget: real, poll: real)
    requires poll > 0.0
    ensures x * poll >= budget <==> x >= budget / poll
  {
    var q := budget / poll;
    RatioTimes(budget, poll);
    Distribute(x, q, poll);
    var d := x - q;
    ProductSign(d, poll);
    assert d * poll == x * poll - budget;
  }

  /** `n` intervals cover the budget exactly when there are at least `Slices` of them. */
  lemma SlicesCover(n: int, budget: real, poll: real)
    requires budget > 0.0 && poll > 0.0
    ensures (n as real) * poll >= budget <==> n >= Slices(budget, poll)
  {
    RatioOrder(n as real, budget, poll);
  }

  lemma NextSlice(n: int, poll: real)
    ensures ((n + 1) as real) * poll == (n as real) * poll + poll
  {
    var x := n as real;
    assert (n + 1) as real == x + 1.0;
    assert (x + 1.0) * poll == x * poll + poll;
  }

  // ----- sequences of polls

  predicate PollsOnly(polls: seq<Event>) {
    forall i | 0 <= i < |polls| :: polls[i].Poll?
  }

  /** How often the polls show a pane different from the one before. */
  function Changes(polls: seq<Event>): nat
    requires PollsOnly(polls)
  {
    if |polls| <= 1 then 0
    else Changes(polls[..|polls| - 1]) + (if polls[|polls| - 1].pane != polls[|polls| - 2].pane then 1 else 0)
  }

  /** The pane stayed the same from poll `a` to poll `b`. */
  predicate Steady(polls: seq<Event>, a: int, b: int)
    requires PollsOnly(polls) && 0 <= a <= b < |polls|
  {
    forall j | a <= j <= b :: polls[j].pane == polls[a].pane
  }

  predicate SteadyFrom(polls: seq<Event>, q: int)
    requires PollsOnly(polls)
  {
    0 <= q < |polls| && Steady(polls, q, |polls| - 1)
  }

  /** No steady stretch of the first `n` polls lasts as long as the budget. */
  predicate Patient(polls: seq<Event>, budget: real, n: int)
    requires PollsOnly(polls) && n <= |polls|
  {
    forall a, b | 0 <= a <= b < n && Steady(polls, a, b) :: polls[b].at - polls[a].at < budget
  }

  /** The polls show what the terminal shows from capture `first` on. */
  predicate Shows(polls: seq<Event>, screens: nat -> string, first: nat)
    requires PollsOnly(polls)
  {
    forall i | 0 <= i < |polls| :: polls[i].pane == screens(first + i)
  }

  /** The polls are exactly one interval apart. */
  predicate OnTime(polls: seq<Event>, start: real, poll: real)
    requires PollsOnly(polls)
  {
    forall i | 0 <= i < |polls| :: polls[i].at == Tick(start, poll, i)
  }

  /** `n` intervals after the start. */
  function Tick(start: real, poll: real, n: nat): real {
    if n == 0 then start else Tick(start, poll, n - 1) + poll
  }

  lemma {:induction false} TickTime(start: real, poll: real, n: nat)
    ensures Tick(start, poll, n) == start + (n as real) * poll
  {
    if n > 0 {
      TickTime(start, poll, n - 1);
      NextSlice(n - 1, poll);
    }
  }

  lemma ShowsOneMore(before: seq<Event>, e: Event, screens: nat -> string, first: nat)
    requires PollsOnly(before) && Shows(before, screens, first) && e.Poll? && e.pane == screens(first + |before|)
    ensures PollsOnly(before + [e]) && Shows(before + [e], screens, first)
  {
  }

  lemma OneMoreOnTime(before: seq<Event>, e: Event, start: real, poll: real)
    requires PollsOnly(before) && OnTime(before, start, poll) && e.Poll? && e.at == Tick(start, poll, |before|)
    ensures PollsOnly(before + [e]) && OnTime(before + [e], start, poll)
  {
  }

  /** One wait: its arguments, and the trace, capture number and time it starts at. */
  datatype Wait = Wait(marker: string, budget: real, poll: real, base: seq<Event>, first: nat, start: real) {
    predicate Sound() {
      budget > 0.0 && poll > 0.0
    }
  }

  type Delay = d: real | d >= 0.0

  class Terminal {
    const screens: nat -> string     // what the n-th capture shows
    const delays: nat -> Delay       // how long the n-th operation takes
    var looks: nat                   // captures so far
    var ticks: nat                   // timed operations so far
    var now: real
    var left: nat
    var trace: seq<Event>

    constructor (screens: nat -> string, delays: nat -> Delay, start: real, captures: nat)
      ensures this.screens == screens && this.delays == delays && looks == 0
      ensures now == start && left == captures && trace == []
    {
      this.screens, this.delays := screens, delays;
      looks, ticks, now, left, trace := 0, 0, start, captures, [];
    }

    /** No operation takes any time of its own. */
    ghost predicate Punctual() {
      forall n :: delays(n) == 0.0
    }

    /** Time passes. */
    method Monotonic() returns (t: real)
      modifies this`now, this`ticks
      ensures t == now && now >= old(now) && (Punctual() ==> now == old(now))
      ensures now == old(now) + delays(old(ticks)) && ticks == old(ticks) + 1
    {
      now := now + delays(ticks);
      ticks := ticks + 1;
      t := now;
    }

    method Sleep(seconds: real)
      requires seconds >= 0.0
      modifies this`now, this`ticks
      ensures now >= old(now) + seconds && (Punctual() ==> now == old(now) + seconds)
    {
      now := now + seconds;
      var _ := Monotonic();
    }

    method Log(e: Event)
      modifies this`trace
      ensures trace == old(trace) + [e]
    {
      trace := trace + [e];
    }

    /** `tmux capture-pane`, unless the observation ends here. */
    method Look() returns (pane: Option<string>)
      modifies this`left, this`looks, this`now, this`ticks
      ensures now >= old(now) && (Punctual() ==> now == old(now))
      ensures pane.None? <==> old(left) == 0
      ensures if pane.None? then left == 0 && looks == old(looks) else left == old(left) - 1 && looks == old(looks) + 1
      ensures pane.Some? ==> pane.value == screens(old(looks))
    {
      if left == 0 { return None; }
      pane := Some(screens(looks));
      left, looks := left - 1, looks + 1;
      var _ := Monotonic();
    }

    /** `capture_pane` */
    method CapturePane() returns (pane: Option<string>)
      modifies this
      ensures now >= old(now) && (Punctual() ==> now == old(now))
      ensures looks == old(looks) + (if pane.Some? then 1 else 0)
      ensures pane.None? ==> trace == old(trace) && left == 0
      ensures pane.Some? ==> trace == old(trace) + [Capture(pane.value)] && pane.value == screens(old(looks))
    {
      pane := Look();
      if pane.Some? { Log(Capture(pane.value)); }
    }

    /** `wait_for_pane_marker`: poll until the marker shows or the pane has been idle for `budget`. */
    method WaitForPaneMarker(marker: string, budget: real, poll: real) returns (outcome: WaitOutcome, ghost polls: seq<Event>)
      requires budget > 0.0 && poll > 0.0
      modifies this
      ensures PollsOnly(polls) && WaitPolls(outcome, polls, marker, budget, poll)
      ensures trace == old(trace) + polls + (if outcome == Cut then [] else [Waited(marker, budget, outcome == Seen)])
      ensures Shows(polls, screens, old(looks)) && looks == old(looks) + |polls| && left == old(left) - |polls|
      ensures Punctual() ==> OnTime(polls, old(now), poll)
      ensures now >= old(now) && (polls != [] ==> now >= polls[|polls| - 1].at)
      ensures outcome != Cut ==> polls != [] && now == polls[|polls| - 1].at
      ensures outcome == Idle ==> now - old(now) >= budget
      ensures outcome == Cut ==> left == 0
    {
      outcome, polls := PollUntilDone(Wait(marker, budget, poll, trace, looks, now));
    }

    method PollUntilDone(w: Wait) returns (outcome: WaitOutcome, ghost polls: seq<Event>)
      requires w.Sound() && w.base == trace && w.first == looks && w.start == now
      modifies this
      ensures Ended(w, outcome, polls) && left == old(left) - |polls| && now >= old(now)
      ensures outcome == Idle ==> now - old(now) >= w.budget
      ensures outcome == Cut ==> left == 0
    {
      polls := [];
      ghost var q: nat := 0;
      var lastPane: Option<string> := None;
      var lastProgressAt := Monotonic();
      while true
        invariant Polled(w, polls, q, lastPane, lastProgressAt)
        invariant left == old(left) - |polls| && now >= lastProgressAt >= old(now)
        decreases left
      {
        var ended;
        ended, lastPane, lastProgressAt, polls, q := PollOnce(w, lastPane, lastProgressAt, polls, q);
        if ended.Some? {
          return ended.value, polls;
        }
      }
    }

    /** One round of the wait; an outcome ends it. */
    method PollOnce(w: Wait, lastPane: Option<string>, lastProgressAt: real, ghost before: seq<Event>, ghost q: nat)
      returns (ended: Option<WaitOutcome>, pane: Option<string>, progressAt: real, ghost polls: seq<Event>, ghost r: nat)
      requires w.Sound() && Polled(w, before, q, lastPane, lastProgressAt)
      modifies this
      ensures if ended == None then Polled(w, polls, r, pane, progressAt) else Ended(w, ended.value, polls)
      ensures left == old(left) - (|polls| - |before|) && (ended == None ==> |polls| > |before|)
      ensures now >= old(now) && (progressAt == lastProgressAt || now >= progressAt >= old(now))
      ensures ended == Some(Idle) ==> now - lastProgressAt >= w.budget
      ensures ended == Some(Cut) ==> left == 0
    {
      pane := Look();
      if pane.None? {
        EndsCut(before, q, w.marker, w.budget, w.poll);
        ended, progressAt, polls, r := Some(Cut), lastProgressAt, before, q;
      } else {
        ended, progressAt, polls, r := Consider(w, lastPane, lastProgressAt, pane.value, before, q);
      }
    }

    /** The pane has been captured: look for the marker, then at the clock. */
    method Consider(w: Wait, lastPane: Option<string>, lastProgressAt: real, pane: string, ghost before: seq<Event>, ghost q: nat)
      returns (ended: Option<WaitOutcome>, progressAt: real, ghost polls: seq<Event>, ghost r: nat)
      requires w.Sound() && Waiting(before, q, w.marker, w.budget, w.poll)
      requires trace == w.base + before && pane == screens(w.first + |before|) && looks == w.first + |before| + 1
      requires InStep(w, before) && (Punctual() ==> now == Tick(w.start, w.poll, |before|))
      requires lastPane == LastPane(before)
      requires before != [] ==> before[q].at == lastProgressAt && now >= before[|before| - 1].at + w.poll
      modifies this`trace, this`now, this`ticks
      ensures if ended == None then Polled(w, polls, r, Some(pane), progressAt) else Ended(w, ended.value, polls)
      ensures |polls| == |before| + 1 && ended != Some(Cut)
      ensures now >= old(now) && (progressAt == lastProgressAt || now >= progressAt >= old(now))
      ensures ended == Some(Idle) ==> now - lastProgressAt >= w.budget
    {
      if Contains(pane, w.marker) {
        polls := LogLast(w, pane, now, before, q);
        ended, progressAt, r := Some(Seen), lastProgressAt, q;
      } else {
        ended, progressAt, polls, r := Judge(w, lastPane, lastProgressAt, pane, before, q);
      }
    }

    /** The marker is not on the pane: go on, or give up after the idle budget. */
    method Judge(w: Wait, lastPane: Option<string>, lastProgressAt: real, pane: string, ghost before: seq<Event>, ghost q: nat)
      returns (ended: Option<WaitOutcome>, progressAt: real, ghost polls: seq<Event>, ghost r: nat)
      requires w.Sound() && Waiting(before, q, w.marker, w.budget, w.poll)
      requires trace == w.base + before && pane == screens(w.first + |before|) && looks == w.first + |before| + 1
      requires InStep(w, before) && (Punctual() ==> now == Tick(w.start, w.poll, |before|))
      requires lastPane == LastPane(before) && !Contains(pane, w.marker)
      requires before != [] ==> before[q].at == lastProgressAt && now >= before[|before| - 1].at + w.poll
      modifies this`trace, this`now, this`ticks
      ensures if ended == None then Polled(w, polls, r, Some(pane), progressAt) else Ended(w, ended.value, polls)
      ensures |polls| == |before| + 1 && (ended == None || ended == Some(Idle))
      ensures now >= old(now) && (progressAt == lastProgressAt || now >= progressAt >= old(now))
      ensures ended == Some(Idle) ==> now - lastProgressAt >= w.budget
    {
      var at := Monotonic();
      if Some(pane) == lastPane && at - lastProgressAt >= w.budget {
        polls := LogLast(w, pane, at, before, q);
        ended, progressAt, r := Some(Idle), lastProgressAt, q;
      } else {
        ended, progressAt := None, if Some(pane) != lastPane then at else lastProgressAt;
        polls, r := GoOn(w, pane, at, before, q);
      }
    }

    /** Note the poll and sleep until the next one. */
    method GoOn(w: Wait, pane: string, at: real, ghost before: seq<Event>, ghost q: nat)
      returns (ghost polls: seq<Event>, ghost r: nat)
      requires w.Sound() && Waiting(before, q, w.marker, w.budget, w.poll)
      requires trace == w.base + before && pane == screens(w.first + |before|) && looks == w.first + |before| + 1
      requires InStep(w, before) && (Punctual() ==> at == Tick(w.start, w.poll, |before|))
      requires !Contains(pane, w.marker) && now == at
      requires before != [] ==> at >= before[|before| - 1].at + w.poll
      requires LastPane(before) == Some(pane) ==> at - before[q].at < w.budget
      modifies this`trace, this`now, this`ticks
      ensures Polled(w, polls, r, Some(pane), if LastPane(before) == Some(pane) then before[q].at else at)
      ensures |polls| == |before| + 1 && now >= old(now)
    {
      polls, r := LogNext(w, pane, at, before, q);
      Sleep(w.poll);
    }

    /** The polls show the terminal's panes, and are on time when the terminal is punctual. */
    ghost predicate InStep(w: Wait, polls: seq<Event>)
      requires PollsOnly(polls)
    {
      Shows(polls, screens, w.first) && (Punctual() ==> OnTime(polls, w.start, w.poll))
    }

    /** Where the loop stands before a capture. */
    ghost predicate Polled(w: Wait, polls: seq<Event>, q: nat, lastPane: Option<string>, lastProgressAt: real)
      requires w.Sound()
      reads this
    {
      && Waiting(polls, q, w.marker, w.budget, w.poll)
      && trace == w.base + polls && looks == w.first + |polls|
      && InStep(w, polls) && (Punctual() ==> now == Tick(w.start, w.poll, |polls|))
      && lastPane == LastPane(polls)
      && (polls != [] ==> polls[q].at == lastProgressAt && now >= polls[|polls| - 1].at + w.poll)
    }

    /** Where the loop stands when it has ended. */
    ghost predicate Ended(w: Wait, outcome: WaitOutcome, polls: seq<Event>)
      requires w.Sound()
      reads this
    {
      && PollsOnly(polls) && WaitPolls(outcome, polls, w.marker, w.budget, w.poll)
      && trace == w.base + polls + (if outcome == Cut then [] else [Waited(w.marker, w.budget, outcome == Seen)])
      && looks == w.first + |polls| && InStep(w, polls) && (polls != [] ==> now >= polls[|polls| - 1].at)
      && (outcome != Cut ==> polls != [] && now == polls[|polls| - 1].at)
    }

    /** Log one poll. */
    method LogPoll(ghost w: Wait, pane: string, at: real, ghost before: seq<Event>) returns (ghost polls: seq<Event>)
      requires trace == w.base + before && PollsOnly(before) && pane == screens(w.first + |before|)
      requires InStep(w, before) && (Punctual() ==> at == Tick(w.start, w.poll, |before|))
      modifies this`trace
      ensures polls == before + [Poll(pane, at)] && trace == w.base + polls
      ensures PollsOnly(polls) && InStep(w, polls)
    {
      Log(Poll(pane, at));
      polls := before + [Poll(pane, at)];
      assert w.base + before + [Poll(pane, at)] == w.base + polls;
      ShowsOneMore(before, Poll(pane, at), screens, w.first);
      if Punctual() { OneMoreOnTime(before, Poll(pane, at), w.start, w.poll); }
    }

    /** The last poll of a wait, and its outcome. */
    method LogLast(w: Wait, pane: string, at: real, ghost before: seq<Event>, ghost q: nat) returns (ghost polls: seq<Event>)
      requires w.Sound() && Waiting(before, q, w.marker, w.budget, w.poll)
      requires trace == w.base + before && pane == screens(w.first + |before|)
      requires InStep(w, before) && (Punctual() ==> at == Tick(w.start, w.poll, |before|))
      requires Contains(pane, w.marker) || (LastPane(before) == Some(pane) && at - before[q].at >= w.budget)
      modifies this`trace
      ensures polls == before + [Poll(pane, at)] && PollsOnly(polls) && InStep(w, polls)
      ensures trace == w.base + polls + [Waited(w.marker, w.budget, Contains(pane, w.marker))]
      ensures WaitPolls(if Contains(pane, w.marker) then Seen else Idle, polls, w.marker, w.budget, w.poll)
    {
      polls := LogPoll(w, pane, at, before);
      Log(Waited(w.marker, w.budget, Contains(pane, w.marker)));
      if Contains(pane, w.marker) {
        EndsSeen(before, polls[|before|], q, w.marker, w.budget, w.poll);
      } else {
        EndsIdle(before, polls[|before|], q, w.marker, w.budget, w.poll);
      }
    }

    /** One more poll without the marker; a new pane starts a new stretch. */
    method LogNext(ghost w: Wait, pane: string, at: real, ghost before: seq<Event>, ghost q: nat)
      returns (ghost polls: seq<Event>, ghost r: nat)
      requires w.Sound() && Waiting(before, q, w.marker, w.budget, w.poll)
      requires trace == w.base + before && pane == screens(w.first + |before|) && !Contains(pane, w.marker)
      requires InStep(w, before) && (Punctual() ==> at == Tick(w.start, w.poll, |before|))
      requires before != [] ==> at >= before[|before| - 1].at + w.poll
      requires LastPane(before) == Some(pane) ==> at - before[q].at < w.budget
      modifies this`trace
      ensures polls == before + [Poll(pane, at)] && trace == w.base + polls
      ensures Waiting(polls, r, w.marker, w.budget, w.poll) && InStep(w, polls)
      ensures r == if LastPane(before) == Some(pane) then q else |before|
    {
      polls := LogPoll(w, pane, at, before);
      if LastPane(before) == Some(pane) {
        r := q;
        GridExtend(before, polls[|before|], q, w.marker, w.budget, w.poll);
        RestExtend(before, polls[|before|], q, w.budget);
      } else {
        r := |before|;
        GridRestart(before, polls[|before|], q, w.marker, w.poll, Slices(w.budget, w.poll));
        RestRestart(before, polls[|before|], q, w.budget);
      }
    }
  }

  /** The pane of the last poll. */
  function LastPane(polls: seq<Event>): Option<string> {
    if polls != [] && polls[|polls| - 1].Poll? then Some(polls[|polls| - 1].pane) else None
  }

  /** What the polls of one wait look like, given how it ended. */
  ghost predicate WaitPolls(outcome: WaitOutcome, polls: seq<Event>, marker: string, budget: real, poll: real)
    requires budget > 0.0 && poll > 0.0 && PollsOnly(polls)
  {
    // the marker shows on the last poll of a wait that saw it, and on no other
    && (forall i | 0 <= i < |polls| :: Contains(polls[i].pane, marker) ==> outcome == Seen && i == |polls| - 1)
    && (outcome == Seen ==> polls != [] && Contains(polls[|polls| - 1].pane, marker))
    // an idle wait ends at the first poll that completes a steady stretch of the budget
    && (outcome == Idle ==> polls != [] && exists q :: SteadyFrom(polls, q) && polls[|polls| - 1].at - polls[q].at >= budget)
    && Patient(polls, budget, if outcome == Cut || polls == [] then |polls| else |polls| - 1)
    // every pane change buys at most one budget of further polls
    && |polls| <= Changes(polls) * Slices(budget, poll) + Slices(budget, poll) + 1
  }

  /** The polls so far lack the marker; since poll `q` the pane is steady, the polls are at least one
      interval apart, and the steady stretch is still shorter than the budget. */
  ghost predicate OnGrid(polls: seq<Event>, q: nat, marker: string, poll: real, slices: nat)
    requires PollsOnly(polls)
  {
    && (forall i | 0 <= i < |polls| :: !Contains(polls[i].pane, marker))
    && (polls == [] ==> q == 0)
    && (polls != [] ==>
          && SteadyFrom(polls, q)
          && ((|polls| - 1 - q) as real) * poll <= polls[|polls| - 1].at - polls[q].at
          && |polls| - 1 - q < slices)
    && q <= Changes(polls) * slices
  }

  /** Poll `q` starts the latest steady stretch, and no stretch has reached the budget. */
  ghost predicate Resting(polls: seq<Event>, q: nat, budget: real)
    requires PollsOnly(polls)
  {
    && (q > 0 ==> q < |polls| && polls[q - 1].pane != polls[q].pane)
    && (forall a, b | 0 <= a <= b < |polls| :: polls[a].at <= polls[b].at)
    && Patient(polls, budget, |polls|)
  }

  /** A wait that has not ended. */
  ghost predicate Waiting(polls: seq<Event>, q: nat, marker: string, budget: real, poll: real)
    requires budget > 0.0 && poll > 0.0
  {
    PollsOnly(polls) && OnGrid(polls, q, marker, poll, Slices(budget, poll)) && Resting(polls, q, budget)
  }

  lemma ChangesOfOneMore(before: seq<Event>, e: Event)
    requires PollsOnly(before) && e.Poll?
    ensures PollsOnly(before + [e])
    ensures Changes(before + [e]) == Changes(before) + (if before != [] && e.pane != before[|before| - 1].pane then 1 else 0)
  {
    var polls := before + [e];
    assert polls[..|polls| - 1] == before;
  }

  lemma OneMoreStretch(changes: nat, slices: nat)
    ensures (changes + 1) * slices == changes * slices + slices
  {
  }

  lemma LastPollBound(before: seq<Event>, e: Event, q: nat, marker: string, poll: real, slices: nat)
    requires PollsOnly(before) && OnGrid(before, q, marker, poll, slices) && e.Poll?
    ensures PollsOnly(before + [e]) && |before + [e]| <= Changes(before + [e]) * slices + slices + 1
  {
    ChangesOfOneMore(before, e);
    OneMoreStretch(Changes(before), slices);
  }

  /** One more poll without the marker starts a new stretch ... */
  lemma GridRestart(before: seq<Event>, e: Event, q: nat, marker: string, poll: real, slices: nat)
    requires PollsOnly(before) && slices >= 1 && OnGrid(before, q, marker, poll, slices)
    requires e.Poll? && !Contains(e.pane, marker)
    requires before == [] || e.pane != before[|before| - 1].pane
    ensures PollsOnly(before + [e]) && OnGrid(before + [e], |before|, marker, poll, slices)
  {
    ChangesOfOneMore(before, e);
    OneMoreStretch(Changes(before), slices);
    assert SteadyFrom(before + [e], |before|);
    assert 0.0 * poll == 0.0;
  }

  lemma SteadyExtends(before: seq<Event>, e: Event, q: nat)
    requires PollsOnly(before) && SteadyFrom(before, q) && e.Poll? && e.pane == before[|before| - 1].pane
    ensures PollsOnly(before + [e]) && SteadyFrom(before + [e], q)
  {
    assert before[|before| - 1].pane == before[q].pane;
  }

  /** ... or extends the old one; a stretch still within the budget keeps the grid. */
  lemma GridExtend(before: seq<Event>, e: Event, q: nat, marker: string, budget: real, poll: real)
    requires budget > 0.0 && poll > 0.0
    requires PollsOnly(before) && before != [] && OnGrid(before, q, marker, poll, Slices(budget, poll))
    requires e.Poll? && !Contains(e.pane, marker)
    requires e.at >= before[|before| - 1].at + poll && e.pane == before[|before| - 1].pane
    requires e.at - before[q].at < budget
    ensures PollsOnly(before + [e]) && OnGrid(before + [e], q, marker, poll, Slices(budget, poll))
  {
    var n := |before|;
    SteadyExtends(before, e, q);
    ChangesOfOneMore(before, e);
    NextSlice(n - 1 - q, poll);
    SlicesCover(n - q, budget, poll);
  }

  lemma PatientPrefix(before: seq<Event>, e: Event, budget: real)
    requires PollsOnly(before) && e.Poll? && Patient(before, budget, |before|)
    ensures PollsOnly(before + [e]) && Patient(before + [e], budget, |before|)
  {
    var polls := before + [e];
    forall a, b | 0 <= a <= b < |before| && Steady(polls, a, b) ensures polls[b].at - polls[a].at < budget {
      assert forall j | a <= j <= b :: polls[j] == before[j];
      assert Steady(before, a, b);
    }
  }

  lemma ChangeBreaks(polls: seq<Event>, q: nat, a: nat, b: nat)
    requires PollsOnly(polls) && 0 < q <= b < |polls| && a <= b
    requires polls[q - 1].pane != polls[q].pane && Steady(polls, a, b)
    ensures q <= a
  {
  }

  lemma RestRestart(before: seq<Event>, e: Event, q: nat, budget: real)
    requires budget > 0.0 && PollsOnly(before) && Resting(before, q, budget)
    requires e.Poll? && (before != [] ==> e.pane != before[|before| - 1].pane && e.at >= before[|before| - 1].at)
    ensures PollsOnly(before + [e]) && Resting(before + [e], |before|, budget)
  {
    var polls, n := before + [e], |before|;
    PatientPrefix(before, e, budget);
    forall a, b | 0 <= a <= b < n + 1 && Steady(polls, a, b) ensures polls[b].at - polls[a].at < budget {
      if b == n > 0 { ChangeBreaks(polls, n, a, b); }
    }
  }

  lemma RestExtend(before: seq<Event>, e: Event, q: nat, budget: real)
    requires budget > 0.0 && PollsOnly(before) && before != [] && q < |before| && Resting(before, q, budget)
    requires e.Poll? && e.at >= before[|before| - 1].at && e.at - before[q].at < budget
    ensures PollsOnly(before + [e]) && Resting(before + [e], q, budget)
  {
    var polls, n := before + [e], |before|;
    PatientPrefix(before, e, budget);
    forall a, b | 0 <= a <= b < n + 1 && Steady(polls, a, b) ensures polls[b].at - polls[a].at < budget {
      if b == n && q > 0 { ChangeBreaks(polls, q, a, b); }
    }
  }

  // ----- the three ends of a wait

  lemma EndsCut(polls: seq<Event>, q: nat, marker: string, budget: real, poll: real)
    requires budget > 0.0 && poll > 0.0 && PollsOnly(polls)
    requires OnGrid(polls, q, marker, poll, Slices(budget, poll)) && Patient(polls, budget, |polls|)
    ensures WaitPolls(Cut, polls, marker, budget, poll)
  {
  }

  lemma EndsSeen(before: seq<Event>, e: Event, q: nat, marker: string, budget: real, poll: real)
    requires budget > 0.0 && poll > 0.0 && PollsOnly(before)
    requires OnGrid(before, q, marker, poll, Slices(budget, poll)) && Patient(before, budget, |before|)
    requires e.Poll? && Contains(e.pane, marker)
    ensures PollsOnly(before + [e]) && WaitPolls(Seen, before + [e], marker, budget, poll)
  {
    LastPollBound(before, e, q, marker, poll, Slices(budget, poll));
    PatientPrefix(before, e, budget);
  }

  lemma EndsIdle(before: seq<Event>, e: Event, q: nat, marker: string, budget: real, poll: real)
    requires budget > 0.0 && poll > 0.0 && PollsOnly(before) && before != []
    requires OnGrid(before, q, marker, poll, Slices(budget, poll)) && Patient(before, budget, |before|)
    requires e.Poll? && !Contains(e.pane, marker)
    requires e.pane == before[|before| - 1].pane && e.at - before[q].at >= budget
    ensures PollsOnly(before + [e]) && WaitPolls(Idle, before + [e], marker, budget, poll)
  {
    var polls := before + [e];
    LastPollBound(before, e, q, marker, poll, Slices(budget, poll));
    PatientPrefix(before, e, budget);
    SteadyExtends(before, e, q);
    assert SteadyFrom(polls, q) && polls[|polls| - 1].at - polls[q].at >= budget;
  }
}
