/** The agent-start sequence on the tmux path: probes, trust banner, input-ready wait with dismissals,
    option screen, and the two-write submit. */
module AgentSession {
  import opened Basics
  import opened Text
  import opened Readiness
  import opened PaneDriver
  import opened PhaseTiming
  import opened SessionLooks
  import opened SessionTrace

  datatype RunResult = Exit(code: int) | CutShort

  datatype TrustOutcome = TrustAccepted | SelfAdvanced | NeverReady | TrustCut
  datatype ReadyOutcome = InputReady | NotReady | ReadyCut
  datatype TrustRound = BannerSeen | AlreadyReady | NothingYet | RoundCut
  datatype AttemptOutcome = AttemptReady | NothingBlocking | DismissedOne | AttemptCut
  datatype ScreenOutcome = Proceed | Refuse | ScreenCut

  /** The trace, the capture number and the time a phase starts with. */
  datatype Phase = Phase(base: seq<Event>, first: nat, start: real)

  class AgentSession {
    const driver: Terminal

    constructor (driver: Terminal)
      ensures this.driver == driver
    {
      this.driver := driver;
    }

    /** Log one operation. */
    method Do(e: Event)
      requires Disciplined(driver.trace) && WellPlaced(driver.trace, e)
      modifies driver
      ensures driver.trace == old(driver.trace) + [e] && Disciplined(driver.trace)
      ensures driver.now == old(driver.now) && driver.left == old(driver.left) && driver.looks == old(driver.looks)
    {
      DisciplinedAppend(driver.trace, e);
      driver.Log(e);
    }

    /** One wait for a marker, with the default poll interval. */
    method AwaitMarker(marker: string, budget: real) returns (outcome: WaitOutcome, ghost ext: seq<Event>)
      requires budget > 0.0 && Disciplined(driver.trace)
      modifies driver
      ensures driver.trace == old(driver.trace) + ext && Disciplined(driver.trace)
      ensures Keys(ext) == []
      ensures Waits(ext, READY_MARKER) == if outcome != Cut && marker == READY_MARKER then 1 else 0
      ensures Waits(ext, INPUT_READY_MARKER) == if outcome != Cut && marker == INPUT_READY_MARKER then 1 else 0
      ensures OneWait(ext, marker, outcome) && (outcome == Seen ==> EndsSeeing(ext, marker))
      ensures outcome == Cut ==> driver.left == 0
      ensures outcome == Idle ==> driver.now - old(driver.now) >= budget
      ensures driver.now >= old(driver.now)
      ensures WaitCost(driver.screens, old(driver.looks), driver.looks, budget, old(driver.now), driver.now,
                       driver.Punctual() && outcome != Cut)
    {
      ghost var polls;
      outcome, polls := driver.WaitForPaneMarker(marker, budget, PANE_POLL_SECONDS);
      ghost var tail := if outcome == Cut then [] else [Waited(marker, budget, outcome == Seen)];
      ext := polls + tail;
      assert driver.trace == old(driver.trace) + ext;
      WaitIsQuiet(old(driver.trace), polls, tail);
      PollsThenEnd(polls, marker, budget, outcome);
      PollsCost(outcome, polls, marker, budget, driver.screens, old(driver.looks), old(driver.now), driver.now,
                driver.Punctual() && outcome != Cut);
    }

    /** `capture_pane` */
    method CaptureScreen() returns (pane: Option<string>, ghost ext: seq<Event>)
      requires Disciplined(driver.trace)
      modifies driver
      ensures driver.trace == old(driver.trace) + ext && Disciplined(driver.trace)
      ensures ext == if pane.Some? then [Capture(pane.value)] else []
      ensures pane.None? ==> driver.left == 0
      ensures Keys(ext) == [] && Quiet(ext)
      ensures driver.now >= old(driver.now) && (driver.Punctual() ==> driver.now == old(driver.now))
      ensures driver.looks == old(driver.looks) + |ext|
    {
      pane := driver.CapturePane();
      ext := if pane.Some? then [Capture(pane.value)] else [];
      if pane.Some? { DisciplinedAppend(old(driver.trace), Capture(pane.value)); }
      assert driver.trace == old(driver.trace) + ext;
    }

    /** One round of the trust loop: a bounded wait for the banner, accepted with Enter, else one capture. */
    method TrustAttempt(budget: real) returns (outcome: TrustRound, ghost ext: seq<Event>)
      requires budget > 0.0 && Disciplined(driver.trace)
      modifies driver
      ensures driver.trace == old(driver.trace) + ext && Disciplined(driver.trace)
      ensures Keys(ext) == if outcome == BannerSeen then [Enter] else []
      ensures Waits(ext, READY_MARKER) <= 1 && Waits(ext, INPUT_READY_MARKER) == 0
      ensures RoundLook(outcome, ext) && (outcome == RoundCut ==> driver.left == 0)
      ensures outcome == NothingYet ==> driver.now - old(driver.now) >= budget
      ensures driver.now >= old(driver.now)
      ensures RoundCost(driver.screens, old(driver.looks), driver.looks, budget, old(driver.now), driver.now,
                        driver.Punctual() && outcome != RoundCut)
    {
      var banner;
      banner, ext := AwaitMarker(READY_MARKER, budget);
      ghost var looked, at, timed := driver.looks, driver.now, driver.Punctual() && banner != Cut;
      WaitThenLook(driver.screens, old(driver.looks), looked, looked, budget, old(driver.now), at, at, timed);
      BannerWait(ext, banner);
      if banner == Cut {
        return RoundCut, ext;
      }
      if banner == Seen {
        SeeingAtTheEnd(old(driver.trace), ext, READY_MARKER);
        EnterBehind(ext);
        Do(Enter);
        ext := ExtendOne(old(driver.trace), ext, Enter);
        return BannerSeen, ext;
      }
      var pane;
      ghost var more;
      pane, more := CaptureScreen();
      WaitThenLook(driver.screens, old(driver.looks), looked, driver.looks, budget, old(driver.now), at, driver.now, timed);
      ghost var waited := ext;
      ext := Extend(old(driver.trace), waited, more);
      if pane.None? {
        return RoundCut, ext;
      }
      LookBehind(waited, pane.value);
      if Contains(pane.value, INPUT_READY_MARKER) {
        return AlreadyReady, ext;
      }
      outcome := NothingYet;
    }

    /** No more than twelve rounds fit before the deadline. */
    ghost predicate OnSchedule(p: Phase, rounds: nat)
      reads driver
    {
      driver.now >= p.start + TIMEOUT_SECONDS || driver.now >= p.start + POLL_SECONDS * rounds as real
    }

    /** Where the trust loop stands after some rounds; an accepted banner ends it. */
    ghost predicate Trusting(p: Phase, ext: seq<Event>, accepted: bool, rounds: nat, timed: bool)
      reads driver
    {
      && driver.trace == p.base + ext && Disciplined(driver.trace)
      && Keys(ext) == (if accepted then [Enter] else [])
      && Waits(ext, READY_MARKER) <= rounds && Waits(ext, INPUT_READY_MARKER) == 0
      && PhaseCost(driver.screens, p.first, driver.looks, rounds, p.start, driver.now, timed)
    }

    /** One round of the trust loop, before the deadline. */
    method TrustRoundInTime(ghost p: Phase, budget: real, ghost before: seq<Event>, ghost rounds: nat)
      returns (outcome: TrustRound, ghost ext: seq<Event>)
      requires Trusting(p, before, false, rounds, driver.Punctual()) && OnSchedule(p, rounds) && NotUp(before)
      requires driver.now < p.start + TIMEOUT_SECONDS
      requires budget == RoundBudget(p.start + TIMEOUT_SECONDS - driver.now)
      modifies driver
      ensures Trusting(p, ext, outcome == BannerSeen, rounds + 1, driver.Punctual() && outcome != RoundCut)
      ensures TrustLook(outcome, ext) && (outcome == RoundCut ==> driver.left == 0)
      ensures outcome == NothingYet ==> OnSchedule(p, rounds + 1)
      ensures driver.now >= old(driver.now)
    {
      ghost var more;
      outcome, more := TrustAttempt(budget);
      CostsAdd(driver.screens, p.first, old(driver.looks), driver.looks, rounds, p.start, old(driver.now), driver.now,
               driver.Punctual(), driver.Punctual() && outcome != RoundCut);
      ext := Extend(p.base, before, more);
      TrustLookAfter(outcome, before, more);
    }

    /** Steps 2 and 3: wait for the trust banner and accept it, unless the agent is already at
        input-ready. */
    method TrustPhase() returns (outcome: TrustOutcome, ghost ext: seq<Event>)
      requires Disciplined(driver.trace)
      modifies driver
      ensures driver.trace == old(driver.trace) + ext && Disciplined(driver.trace)
      ensures Keys(ext) == if outcome == TrustAccepted then [Enter] else []
      ensures Waits(ext, READY_MARKER) <= 12 && Waits(ext, INPUT_READY_MARKER) == 0
      ensures TrustLook(LastRound(outcome), ext)
      ensures outcome == TrustCut ==> driver.left == 0
      ensures outcome == NeverReady ==> driver.now - old(driver.now) >= TIMEOUT_SECONDS
      ensures var changes := PaneChanges(driver.screens, old(driver.looks), driver.looks);
              && driver.looks - old(driver.looks) <= 10 * changes + 144
              && (driver.Punctual() && outcome != TrustCut ==>
                    driver.now - old(driver.now) <= TIMEOUT_SECONDS + 5.0 * changes as real)
    {
      ext := [];
      assert driver.trace == old(driver.trace) + ext;
      var start := driver.Monotonic();
      var deadline := start + TIMEOUT_SECONDS;
      ghost var p := Phase(old(driver.trace), driver.looks, start);
      ghost var attempts: nat := 0;
      NoCost(driver.screens, driver.looks, start, driver.Punctual());
      while true
        invariant attempts <= 12 && Trusting(p, ext, false, attempts, driver.Punctual()) && OnSchedule(p, attempts)
        invariant NotUp(ext)
        invariant driver.now >= start
        decreases 12 - attempts
      {
        var t := driver.Monotonic();
        var remaining := deadline - t;
        if remaining <= 0.0 { break; }
        var round;
        round, ext := TrustRoundInTime(p, RoundBudget(remaining), ext, attempts);
        attempts := attempts + 1;
        PhaseBound(driver.screens, p.first, driver.looks, attempts, start, driver.now, driver.Punctual() && round != RoundCut);
        match round {
          case RoundCut =>
            return TrustCut, ext;
          case BannerSeen =>
            return TrustAccepted, ext;
          case AlreadyReady =>
            return SelfAdvanced, ext;
          case NothingYet =>
            t := driver.Monotonic();
            if t >= deadline { break; }
        }
      }
      PhaseBound(driver.screens, p.first, driver.looks, attempts, start, driver.now, driver.Punctual());
      outcome := NeverReady;
    }

    /** Decline a blocking prompt with Escape, and name it in a warning. */
    method Dismiss(pane: string, name: string) returns (ghost ext: seq<Event>)
      requires Disciplined(driver.trace) && BlockingPrompt(pane) == Some(name)
      requires driver.trace != [] && driver.trace[|driver.trace| - 1] == Capture(pane)
      modifies driver
      ensures driver.trace == old(driver.trace) + ext && Disciplined(driver.trace)
      ensures ext == [Escape, Warned(name)] && Dismissable(pane)
      ensures Keys(ext) == [Escape] && Quiet(ext)
      ensures driver.now == old(driver.now) && driver.looks == old(driver.looks)
    {
      BlockingIffDismissable(pane);
      Do(Escape);
      ext := ExtendOne(old(driver.trace), [], Escape);
      Do(Warned(name));
      ext := ExtendOne(old(driver.trace), ext, Warned(name));
    }

    /** After a wait that did not see input-ready: capture the pane and decline what blocks it. */
    method DeclineBlocker() returns (outcome: AttemptOutcome, ghost ext: seq<Event>)
      requires Disciplined(driver.trace)
      modifies driver
      ensures driver.trace == old(driver.trace) + ext && Disciplined(driver.trace)
      ensures Keys(ext) == (if outcome == DismissedOne then [Escape] else []) && LookedAndDeclined(ext)
      ensures Quiet(ext) && outcome != AttemptReady && (outcome == AttemptCut ==> driver.left == 0)
      ensures driver.now >= old(driver.now) && (driver.Punctual() ==> driver.now == old(driver.now))
      ensures old(driver.looks) <= driver.looks <= old(driver.looks) + 1
    {
      var pane;
      pane, ext := CaptureScreen();
      if pane.None? {
        NothingLookedAt();
        return AttemptCut, ext;
      }
      var name := BlockingPrompt(pane.value);
      if name.None? {
        NotBlocked(pane.value);
        return NothingBlocking, ext;
      }
      ghost var captured := ext;
      ghost var more := Dismiss(pane.value, name.value);
      BlockDeclined(pane.value, name.value);
      ext := Extend(old(driver.trace), captured, more);
      outcome := DismissedOne;
    }

    /** One round of the readiness loop: a bounded wait, then at most one dismissal. */
    method ReadyAttempt(budget: real) returns (outcome: AttemptOutcome, ghost ext: seq<Event>)
      requires budget > 0.0 && Disciplined(driver.trace)
      modifies driver
      ensures driver.trace == old(driver.trace) + ext && Disciplined(driver.trace)
      ensures Keys(ext) == (if outcome == DismissedOne then [Escape] else []) && Declines(ext)
      ensures Waits(ext, READY_MARKER) == 0 && Waits(ext, INPUT_READY_MARKER) <= 1
      ensures outcome == AttemptReady ==> EndsSeeing(ext, INPUT_READY_MARKER)
      ensures Answered(ext) && (outcome != AttemptReady ==> NotReadied(ext))
      ensures outcome == AttemptCut ==> driver.left == 0
      ensures outcome == NothingBlocking || outcome == DismissedOne ==> driver.now - old(driver.now) >= budget
      ensures driver.now >= old(driver.now)
      ensures RoundCost(driver.screens, old(driver.looks), driver.looks, budget, old(driver.now), driver.now,
                        driver.Punctual() && outcome != AttemptCut)
    {
      var ready;
      ready, ext := AwaitMarker(INPUT_READY_MARKER, budget);
      ghost var looked, at, timed := driver.looks, driver.now, driver.Punctual() && ready != Cut;
      WaitThenLook(driver.screens, old(driver.looks), looked, looked, budget, old(driver.now), at, at, timed);
      NoEscapeDeclines(ext);
      ReadyWait(ext, ready);
      match ready
      case Cut => outcome := AttemptCut;
      case Seen => outcome := AttemptReady;
      case Idle =>
        ghost var waited := ext;
        ghost var more;
        outcome, more := DeclineBlocker();
        WaitThenLook(driver.screens, old(driver.looks), looked, driver.looks, budget, old(driver.now), at, driver.now, timed);
        DeclinesAppend(waited, more);
        AnsweredAppend(waited, more);
        NotReadiedAppend(waited, more);
        ext := Extend(old(driver.trace), waited, more);
    }

    /** Where the readiness loop stands after some rounds and `n` dismissals. */
    ghost predicate Underway(p: Phase, ext: seq<Event>, n: nat, rounds: nat, timed: bool)
      reads driver
    {
      && driver.trace == p.base + ext && Disciplined(driver.trace) && Dismissing(ext, n, rounds)
      && PhaseCost(driver.screens, p.first, driver.looks, rounds, p.start, driver.now, timed)
    }

    /** One round of the readiness loop, before the deadline. */
    method ReadyRound(ghost p: Phase, budget: real, ghost before: seq<Event>, ghost n: nat, ghost rounds: nat)
      returns (outcome: AttemptOutcome, ghost ext: seq<Event>, ghost m: nat)
      requires Underway(p, before, n, rounds, driver.Punctual()) && OnSchedule(p, rounds) && NotReadied(before)
      requires driver.now < p.start + TIMEOUT_SECONDS
      requires budget == RoundBudget(p.start + TIMEOUT_SECONDS - driver.now)
      modifies driver
      ensures Underway(p, ext, m, rounds + 1, driver.Punctual() && outcome != AttemptCut)
      ensures if outcome == AttemptReady then EndsSeeing(ext, INPUT_READY_MARKER) else NotReadied(ext)
      ensures outcome == AttemptCut ==> driver.left == 0
      ensures outcome == NothingBlocking || outcome == DismissedOne ==> OnSchedule(p, rounds + 1)
      ensures driver.now >= old(driver.now)
    {
      ghost var more;
      outcome, more := ReadyAttempt(budget);
      CostsAdd(driver.screens, p.first, old(driver.looks), driver.looks, rounds, p.start, old(driver.now), driver.now,
               driver.Punctual(), driver.Punctual() && outcome != AttemptCut);
      OneMoreRound(before, more, n, rounds, outcome == DismissedOne);
      ext := Extend(p.base, before, more);
      m := if outcome == DismissedOne then n + 1 else n;
      if outcome == AttemptReady { SeeingAtTheEnd(before, more, INPUT_READY_MARKER); } else { NotReadiedAppend(before, more); }
    }

    /** Step 4: wait for input-ready, dismissing blocking prompts with Escape. */
    method ReadyPhase() returns (outcome: ReadyOutcome, ghost ext: seq<Event>)
      requires Disciplined(driver.trace)
      modifies driver
      ensures driver.trace == old(driver.trace) + ext && Disciplined(driver.trace)
      ensures Declines(ext) && Answered(ext) && FewEscapes(ext)
      ensures Waits(ext, INPUT_READY_MARKER) <= 12 && Waits(ext, READY_MARKER) == 0
      ensures if outcome == InputReady then EndsSeeing(ext, INPUT_READY_MARKER) else NotReadied(ext)
      ensures outcome == ReadyCut ==> driver.left == 0
      ensures outcome == NotReady ==> driver.now - old(driver.now) >= TIMEOUT_SECONDS
      ensures var changes := PaneChanges(driver.screens, old(driver.looks), driver.looks);
              && driver.looks - old(driver.looks) <= 10 * changes + 144
              && (driver.Punctual() && outcome != ReadyCut ==>
                    driver.now - old(driver.now) <= TIMEOUT_SECONDS + 5.0 * changes as real)
    {
      ext := [];
      assert driver.trace == old(driver.trace) + ext;
      var start := driver.Monotonic();
      var deadline := start + TIMEOUT_SECONDS;
      ghost var p := Phase(old(driver.trace), driver.looks, start);
      ghost var attempts: nat, escapes: nat := 0, 0;
      NoCost(driver.screens, driver.looks, start, driver.Punctual());
      NothingDismissed();
      while true
        invariant attempts <= 12 && Underway(p, ext, escapes, attempts, driver.Punctual()) && OnSchedule(p, attempts)
        invariant NotReadied(ext)
        invariant driver.now >= start
        decreases 12 - attempts
      {
        var t := driver.Monotonic();
        var remaining := deadline - t;
        if remaining <= 0.0 { break; }
        var attempt;
        attempt, ext, escapes := ReadyRound(p, RoundBudget(remaining), ext, escapes, attempts);
        attempts := attempts + 1;
        RoundsEnd(ext, escapes, attempts);
        PhaseBound(driver.screens, p.first, driver.looks, attempts, start, driver.now, driver.Punctual() && attempt != AttemptCut);
        match attempt {
          case AttemptCut =>
            return ReadyCut, ext;
          case AttemptReady =>
            return InputReady, ext;
          case NothingBlocking =>
            t := driver.Monotonic();
            if t >= deadline { break; }
          case DismissedOne =>
        }
      }
      RoundsEnd(ext, escapes, attempts);
      PhaseBound(driver.screens, p.first, driver.looks, attempts, start, driver.now, driver.Punctual());
      outcome := NotReady;
    }

    /** `_handle_option_screen` */
    method HandleOptionScreen() returns (outcome: ScreenOutcome, ghost ext: seq<Event>)
      requires Disciplined(driver.trace)
      modifies driver
      ensures driver.trace == old(driver.trace) + ext && Disciplined(driver.trace)
      ensures Quiet(ext)
      ensures match outcome
              case ScreenCut => ext == [] && driver.left == 0
              case Refuse => ScreenRefused(ext)
              case Proceed => ScreenPassed(ext)
    {
      var pane;
      pane, ext := CaptureScreen();
      if pane.None? {
        return ScreenCut, ext;
      }
      if !Contains(pane.value, OPTION_SCREEN_MARKER) {
        PlainPasses(pane.value);
        return Proceed, ext;
      }
      if Contains(pane.value, ESCAPE_AFFORDANCE_MARKER) {
        Do(Escape);
        ext := ExtendOne(old(driver.trace), ext, Escape);
        outcome := Proceed;
      } else {
        outcome := Refuse;
      }
      Do(Warned(pane.value));
      ext := ExtendOne(old(driver.trace), ext, Warned(pane.value));
      if outcome == Proceed { EscapedPasses(pane.value); } else { UnescapableRefuses(pane.value); }
    }

    /** Step 5: the prompt as one paste, then a bare Enter. */
    method Inject(prompt: string) returns (ghost ext: seq<Event>)
      requires Disciplined(driver.trace)
      modifies driver
      ensures driver.trace == old(driver.trace) + ext && Disciplined(driver.trace)
      ensures ext == Submission(prompt)
      ensures Keys(ext) == [Paste(prompt), Enter] && Quiet(ext)
    {
      ext := [];
      assert driver.trace == old(driver.trace) + ext;
      if Utf8Length(prompt) > MAX_ARG_STRLEN {
        Do(LoadBuffer(prompt));
        ext := ExtendOne(old(driver.trace), ext, LoadBuffer(prompt));
      }
      Do(Paste(prompt));
      ext := ExtendOne(old(driver.trace), ext, Paste(prompt));
      Do(Enter);
      ext := ExtendOne(old(driver.trace), ext, Enter);
    }

    /** `_write_launch_diagnostic`: the write may fail, which is not fatal. */
    method WriteLaunchDiagnostic(cause: string) returns (ghost ext: seq<Event>)
      requires Disciplined(driver.trace)
      modifies driver
      ensures driver.trace == old(driver.trace) + ext && Disciplined(driver.trace)
      ensures |ext| == 1 && ext[0].Diagnostic? && ext[0].cause == cause
      ensures Keys(ext) == [] && Quiet(ext)
    {
      var written: bool := *;
      Do(Diagnostic(cause, written));
      ext := ExtendOne(old(driver.trace), [], Diagnostic(cause, written));
    }

    /** Log a probe; when it failed, write the diagnostic that ends the run. */
    method Gate(probe: Event, ok: bool, cause: string) returns (ghost ext: seq<Event>)
      requires probe == ProbeDb(ok) || probe == ProbeVault(ok)
      requires Disciplined(driver.trace)
      modifies driver
      ensures driver.trace == old(driver.trace) + ext && Disciplined(driver.trace)
      ensures Keys(ext) == [] && Quiet(ext)
      ensures if ok then ext == [probe] else |ext| == 2 && ext[0] == probe && ext[1].Diagnostic? && ext[1].cause == cause
    {
      Do(probe);
      ext := ExtendOne(old(driver.trace), [], probe);
      if !ok {
        ghost var last := WriteLaunchDiagnostic(cause);
        ext := Extend(old(driver.trace), ext, last);
      }
    }

    /** The two readiness barriers; the messaging one is skipped without a DSN. */
    method Barriers(dsn: string) returns (passed: bool, ghost ext: seq<Event>)
      requires Disciplined(driver.trace)
      modifies driver
      ensures driver.trace == old(driver.trace) + ext && Disciplined(driver.trace)
      ensures Keys(ext) == [] && Quiet(ext)
      ensures if passed then ext == Probes(dsn)
              else ext != [] && ext[|ext| - 1].Diagnostic? && ProbeFailed(ext[..|ext| - 1], dsn, ext[|ext| - 1].cause)
    {
      ext := [];
      assert driver.trace == old(driver.trace) + ext;
      if dsn != "" {
        var dbOk: bool := *;
        ext := Gate(ProbeDb(dbOk), dbOk, "messaging-db");
        if !dbOk {
          return false, ext;
        }
      }
      var vaultOk: bool := *;
      ghost var more := Gate(ProbeVault(vaultOk), vaultOk, "agent-vault");
      ext := Extend(old(driver.trace), ext, more);
      passed := vaultOk;
    }

    /** Everything up to the start of the agent program. */
    method Open(dsn: string) returns (passed: bool, ghost ext: seq<Event>)
      requires driver.trace == []
      modifies driver
      ensures driver.trace == ext && Disciplined(driver.trace)
      ensures Keys(ext) == [] && Quiet(ext)
      ensures if passed then ext == Opening(dsn) else GaveUp(ext, dsn)
    {
      Do(NewSession);
      ghost var created := ExtendOne([], [], NewSession);
      ghost var more;
      passed, more := Barriers(dsn);
      ghost var probed := Extend([], created, more);
      if !passed { ProbeGivesUp(more, dsn); }
      ext := probed;
      if passed {
        Do(StartClaude);
        ext := ExtendOne([], probed, StartClaude);
      }
    }

    /** The input-ready wait after the trust Enter. */
    method WaitAccepted(ghost accepted: seq<Event>) returns (result: Option<RunResult>, ghost ext: seq<Event>)
      requires Disciplined(driver.trace) && Accepted(accepted) && Waits(accepted, INPUT_READY_MARKER) == 0
      modifies driver
      ensures driver.trace == old(driver.trace) + ext && Disciplined(driver.trace)
      ensures Careful(accepted + ext)
      ensures Waits(ext, READY_MARKER) == 0 && Waits(ext, INPUT_READY_MARKER) <= 12
      ensures StartEnds(result, accepted + ext) && (result == Some(CutShort) ==> driver.left == 0)
    {
      var ready;
      ready, ext := ReadyPhase();
      AcceptedThenWaited(accepted, ext, ready);
      match ready
      case InputReady => result := None;
      case ReadyCut => result := Some(CutShort);
      case NotReady =>
        ghost var waited := ext;
        ghost var last := WriteLaunchDiagnostic("readiness");
        ext := Extend(old(driver.trace), waited, last);
        DiagnosticAfter(accepted, waited, last);
        result := Some(Exit(1));
    }

    /** The trust banner and the input-ready wait; a result ends the run here. */
    method BecomeReady() returns (result: Option<RunResult>, ghost ext: seq<Event>)
      requires Disciplined(driver.trace)
      modifies driver
      ensures driver.trace == old(driver.trace) + ext && Disciplined(driver.trace)
      ensures Careful(ext)
      ensures Waits(ext, READY_MARKER) <= 12 && Waits(ext, INPUT_READY_MARKER) <= 12
      ensures StartEnds(result, ext) && (result == Some(CutShort) ==> driver.left == 0)
    {
      var trust;
      trust, ext := TrustPhase();
      TrustEnds(trust, ext);
      match trust
      case SelfAdvanced => result := None;
      case TrustCut => result := Some(CutShort);
      case NeverReady =>
        ghost var waited := ext;
        ghost var last := WriteLaunchDiagnostic("agent-startup");
        ext := Extend(old(driver.trace), waited, last);
        NothingBefore(waited);
        DiagnosticAfter([], waited, last);
        NothingBefore(ext);
        result := Some(Exit(1));
      case TrustAccepted =>
        ghost var accepted := ext;
        ghost var more;
        result, more := WaitAccepted(accepted);
        ext := Extend(old(driver.trace), accepted, more);
    }

    /** The option screen and the submission, once input-ready was seen in `readied`. */
    method Engage(prompt: string, dsn: string, ghost readied: seq<Event>) returns (result: RunResult)
      requires driver.trace == readied && Disciplined(readied)
      requires Readied(readied, dsn)
      modifies driver
      ensures Disciplined(driver.trace)
      ensures Waits(driver.trace, READY_MARKER) == Waits(readied, READY_MARKER)
      ensures Waits(driver.trace, INPUT_READY_MARKER) == Waits(readied, INPUT_READY_MARKER)
      ensures result == Exit(0) ==> Submitted(driver.trace, prompt, dsn) || Refused(driver.trace, dsn)
      ensures result == Exit(0) || (result == CutShort && driver.trace == readied && driver.left == 0)
    {
      var screen;
      ghost var more;
      screen, more := HandleOptionScreen();
      ghost var ext := Extend([], readied, more);
      match screen
      case ScreenCut =>
        result := CutShort;
      case Refuse =>
        assert driver.trace == readied + more;
        result := Exit(0);
      case Proceed =>
        Submit(prompt, dsn, readied, more);
        result := Exit(0);
    }

    /** The submission ends the run. */
    method Submit(prompt: string, dsn: string, ghost readied: seq<Event>, ghost screen: seq<Event>)
      requires driver.trace == readied + screen && Disciplined(driver.trace)
      requires Readied(readied, dsn) && ScreenPassed(screen) && Quiet(screen)
      modifies driver
      ensures Disciplined(driver.trace) && Submitted(driver.trace, prompt, dsn)
      ensures Waits(driver.trace, READY_MARKER) == Waits(readied, READY_MARKER)
      ensures Waits(driver.trace, INPUT_READY_MARKER) == Waits(readied, INPUT_READY_MARKER)
    {
      ghost var before := Extend([], readied, screen);
      ghost var more := Inject(prompt);
      ghost var all := Extend([], before, more);
      assert driver.trace == readied + screen + Submission(prompt);
    }

    /** `_start_agent_session` on the tmux path.  An empty prompt starts only the session; an empty `dsn`
        skips the messaging probe. */
    method StartAgentSession(prompt: string, dsn: string) returns (result: RunResult)
      requires driver.trace == []
      modifies driver
      ensures Disciplined(driver.trace)
      ensures Waits(driver.trace, READY_MARKER) <= 12 && Waits(driver.trace, INPUT_READY_MARKER) <= 12
      ensures result == Exit(0) || result == Exit(1) || result == CutShort
      ensures prompt == "" ==> result == Exit(0) && driver.trace == [NewSession]
      ensures prompt != "" && result == Exit(0) ==> Submitted(driver.trace, prompt, dsn) || Refused(driver.trace, dsn)
      ensures result == Exit(1) ==> Unsubmitted(driver.trace, dsn) && GaveUp(driver.trace, dsn)
      // without an Enter the agent was never seen to be up
      ensures result == Exit(1) && Enter !in driver.trace ==> NotUp(driver.trace)
      ensures result == CutShort ==> Unsubmitted(driver.trace, dsn) && driver.left == 0
    {
      if prompt == "" {
        Do(NewSession);
        OneEvent(NewSession, READY_MARKER);
        OneEvent(NewSession, INPUT_READY_MARKER);
        return Exit(0);
      }
      var passed;
      ghost var started, more;
      passed, started := Open(dsn);
      KeylessCareful(started);
      if !passed {
        NoEnterWithoutKeys(started);
        UnseenWithoutEnter(started, dsn);
        return Exit(1);
      }
      var early;
      early, more := BecomeReady();
      ghost var readied := Extend([], started, more);
      QuietThenCareful(started, more);
      NoEnterWithoutKeys(started);
      if early.Some? {
        if early.value == Exit(1) { GivesUpAfterOpening(more, dsn); }
        return early.value;
      }
      ReadyAfter(started, more);
      result := Engage(prompt, dsn, readied);
    }
  }

  // ----- what a stretch of the trace says about how it ended

  /** What one or more trust rounds have seen. */
  predicate TrustLook(outcome: TrustRound, tr: seq<Event>) {
    match outcome
    case RoundCut => NotUp(tr)
    case NothingYet => NotUp(tr)
    case AlreadyReady => EndsShowingReady(tr) && NotUp(tr[..|tr| - 1])
    case BannerSeen =>
      && |tr| >= 3 && tr[|tr| - 1] == Enter && EndsSeeing(tr[..|tr| - 1], "Accessing workspace:")
      && NotUp(tr[..|tr| - 2])
  }

  /** What one round has seen: the round goes on only after a capture that does not show input-ready. */
  predicate RoundLook(outcome: TrustRound, tr: seq<Event>) {
    && TrustLook(outcome, tr)
    && (outcome == NothingYet ==>
          tr != [] && tr[|tr| - 1].Capture? && !Contains(tr[|tr| - 1].pane, "bypass permissions on"))
  }

  lemma EnterBehind(tr: seq<Event>)
    requires EndsSeeing(tr, READY_MARKER) && NotUp(tr[..|tr| - 1])
    ensures RoundLook(BannerSeen, tr + [Enter])
  {
    var all := tr + [Enter];
    assert all[..|all| - 1] == tr && all[..|all| - 2] == tr[..|tr| - 1];
  }

  lemma LookBehind(tr: seq<Event>, pane: string)
    requires NotUp(tr)
    ensures RoundLook(if Contains(pane, INPUT_READY_MARKER) then AlreadyReady else NothingYet, tr + [Capture(pane)])
  {
    var all := tr + [Capture(pane)];
    assert all[..|all| - 1] == tr;
    if !Contains(pane, INPUT_READY_MARKER) { NotUpAppend(tr, [Capture(pane)]); }
  }

  lemma TrustLookAfter(outcome: TrustRound, before: seq<Event>, more: seq<Event>)
    requires NotUp(before) && TrustLook(outcome, more)
    ensures TrustLook(outcome, before + more)
  {
    var all := before + more;
    match outcome
    case RoundCut => NotUpAppend(before, more);
    case NothingYet => NotUpAppend(before, more);
    case AlreadyReady => NotUpUntilLast(before, more);
    case BannerSeen =>
      NotUpAppend(before, more[..|more| - 2]);
      SeeingAtTheEnd(before, more[..|more| - 1], READY_MARKER);
      assert all[..|all| - 1] == before + more[..|more| - 1] && all[..|all| - 2] == before + more[..|more| - 2];
  }

  /** What the wait for the agent ends with. */
  predicate StartEnds(result: Option<RunResult>, tr: seq<Event>) {
    match result
    case None => ReadyAtEnd(tr)
    case Some(CutShort) => true
    case Some(Exit(code)) =>
      code == 1 && tr != [] && tr[|tr| - 1].Diagnostic? && NeverEngaged(tr[..|tr| - 1], tr[|tr| - 1].cause)
  }

  /** The last round of the trust phase. */
  function LastRound(outcome: TrustOutcome): TrustRound {
    match outcome
    case TrustAccepted => BannerSeen
    case SelfAdvanced => AlreadyReady
    case NeverReady => NothingYet
    case TrustCut => RoundCut
  }

  lemma TrustEnds(outcome: TrustOutcome, tr: seq<Event>)
    requires TrustLook(LastRound(outcome), tr) && Keys(tr) == if outcome == TrustAccepted then [Enter] else []
    ensures Careful(tr)
    ensures outcome == TrustAccepted ==> Accepted(tr)
    ensures outcome == SelfAdvanced ==> ReadyAtEnd(tr)
    ensures outcome == NeverReady ==> NeverEngaged(tr, "agent-startup")
  {
    if outcome == TrustAccepted {
      AcceptedCareful(tr);
    } else {
      KeylessCareful(tr);
      NoEnterWithoutKeys(tr);
    }
  }

  lemma AcceptedThenWaited(accepted: seq<Event>, waited: seq<Event>, outcome: ReadyOutcome)
    requires Accepted(accepted) && Waits(accepted, INPUT_READY_MARKER) == 0
    requires Declines(waited) && Answered(waited) && FewEscapes(waited)
    requires if outcome == InputReady then EndsSeeing(waited, INPUT_READY_MARKER) else NotReadied(waited)
    ensures Careful(accepted + waited)
    ensures if outcome == InputReady then ReadyAtEnd(accepted + waited) else NeverEngaged(accepted + waited, "readiness")
  {
    WaitCareful(accepted, waited);
    assert accepted[|accepted| - 1] == Enter && Enter in accepted;
    if outcome == InputReady {
      ReadyAfterEnter(accepted, waited);
    } else {
      NoWaitsNotReadied(accepted);
      NotReadiedAppend(accepted, waited);
    }
  }

  lemma DiagnosticAfter(before: seq<Event>, waited: seq<Event>, last: seq<Event>)
    requires |last| == 1 && last[0].Diagnostic? && Keys(last) == []
    requires Careful(before + waited) && NeverEngaged(before + waited, last[0].cause)
    ensures Careful(before + (waited + last)) && StartEnds(Some(Exit(1)), before + (waited + last))
  {
    CarefulUntilDiagnostic(before + waited, last, before + (waited + last));
    EndsInDiagnostic(before, waited, last);
  }

  lemma CarefulUntilDiagnostic(waited: seq<Event>, last: seq<Event>, tr: seq<Event>)
    requires |last| == 1 && last[0].Diagnostic? && Keys(last) == [] && Careful(waited) && tr == waited + last
    ensures Careful(tr)
  {
    CarefulThenQuiet(waited, last);
  }

  lemma NothingBefore(tr: seq<Event>)
    ensures [] + tr == tr
  {
  }

  /** At most one pane was captured; it was declined exactly when it was dismissable. */
  predicate LookedAndDeclined(tr: seq<Event>) {
    Declines(tr) && Answered(tr) && NotReadied(tr)
  }

  lemma NothingLookedAt()
    ensures LookedAndDeclined([])
  {
  }

  lemma NotBlocked(pane: string)
    requires BlockingPrompt(pane).None?
    ensures LookedAndDeclined([Capture(pane)])
  {
    BlockingIffDismissable(pane);
    LookAnswered(pane, "");
  }

  lemma BlockDeclined(pane: string, name: string)
    requires BlockingPrompt(pane) == Some(name)
    ensures LookedAndDeclined([Capture(pane)] + [Escape, Warned(name)])
  {
    BlockingIffDismissable(pane);
    LookAnswered(pane, name);
    DismissalDeclines(pane, name);
  }

  lemma EndsInDiagnostic(before: seq<Event>, waited: seq<Event>, last: seq<Event>)
    requires |last| == 1 && last[0].Diagnostic? && NeverEngaged(before + waited, last[0].cause)
    ensures StartEnds(Some(Exit(1)), before + (waited + last))
  {
    var tr := before + (waited + last);
    assert tr[|tr| - 1] == last[0] && tr[..|tr| - 1] == before + waited;
  }

  lemma ProbeGivesUp(probed: seq<Event>, dsn: string)
    requires probed != [] && probed[|probed| - 1].Diagnostic?
    requires ProbeFailed(probed[..|probed| - 1], dsn, probed[|probed| - 1].cause)
    ensures GaveUp([NewSession] + probed, dsn)
  {
    var tr := [NewSession] + probed;
    assert tr[..|tr| - 1] == [NewSession] + probed[..|probed| - 1];
    assert tr[..|tr| - 1][1..] == probed[..|probed| - 1];
  }

  lemma GivesUpAfterOpening(more: seq<Event>, dsn: string)
    requires StartEnds(Some(Exit(1)), more) && Keys(Opening(dsn)) == []
    ensures GaveUp(Opening(dsn) + more, dsn)
    ensures Enter !in Opening(dsn) + more ==> NotUp(Opening(dsn) + more)
  {
    var opening, n := Opening(dsn), |more| - 1;
    var tr := opening + more;
    var before := opening + more[..n];
    assert tr[..|tr| - 1] == before && tr[|tr| - 1] == more[n];
    OpeningShowsNothing(dsn);
    KeysAppend(opening, more[..n]);
    if NotUp(more[..n]) { NotUpAppend(opening, more[..n]); }
    NotReadiedAppendIf(opening, more[..n]);
    UnseenIfGivenUp(tr, dsn);
  }

  lemma OpeningShowsNothing(dsn: string)
    ensures NotUp(Opening(dsn)) && NotReadied(Opening(dsn))
  {
  }

  lemma NotReadiedAppendIf(a: seq<Event>, b: seq<Event>)
    requires NotReadied(a)
    ensures NotReadied(b) ==> NotReadied(a + b)
  {
    if NotReadied(b) { NotReadiedAppend(a, b); }
  }

  lemma UnseenIfGivenUp(tr: seq<Event>, dsn: string)
    requires GaveUp(tr, dsn)
    ensures Enter !in tr ==> NotUp(tr)
  {
    if Enter !in tr { UnseenWithoutEnter(tr, dsn); }
  }

  /** Bookkeeping of the ghost extension of a trace. */
  ghost function Extend(start: seq<Event>, ext: seq<Event>, more: seq<Event>): (all: seq<Event>)
    ensures all == ext + more && start + all == start + ext + more
    ensures Keys(all) == Keys(ext) + Keys(more)
    ensures Waits(all, READY_MARKER) == Waits(ext, READY_MARKER) + Waits(more, READY_MARKER)
    ensures Waits(all, INPUT_READY_MARKER) == Waits(ext, INPUT_READY_MARKER) + Waits(more, INPUT_READY_MARKER)
  {
    KeysAppend(ext, more);
    WaitsAppend(ext, more, READY_MARKER);
    WaitsAppend(ext, more, INPUT_READY_MARKER);
    assert start + (ext + more) == start + ext + more;
    ext + more
  }

  ghost function ExtendOne(start: seq<Event>, ext: seq<Event>, e: Event): (all: seq<Event>)
    requires !e.Waited?
    ensures all == ext + [e] && start + all == start + ext + [e]
    ensures Keys(all) == Keys(ext) + (if IsKey(e) then [e] else [])
    ensures Waits(all, READY_MARKER) == Waits(ext, READY_MARKER)
    ensures Waits(all, INPUT_READY_MARKER) == Waits(ext, INPUT_READY_MARKER)
  {
    OneEvent(e, READY_MARKER);
    OneEvent(e, INPUT_READY_MARKER);
    Extend(start, ext, [e])
  }
}
