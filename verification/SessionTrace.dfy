/** What a trace of the launcher's terminal operations may look like. */
module SessionTrace {
  import opened Text
  import opened Readiness
  import opened PaneDriver
  import opened SessionLooks

  // ----- projections of a trace

  predicate IsKey(e: Event) {
    e.Enter? || e.Escape? || e.Paste?
  }

  /** The keystrokes, in order. */
  function Keys(tr: seq<Event>): seq<Event> {
    if tr == [] then [] else (if IsKey(tr[0]) then [tr[0]] else []) + Keys(tr[1..])
  }

  /** How many waits for `marker` have ended. */
  function Waits(tr: seq<Event>, marker: string): nat {
    if tr == [] then 0
    else (if tr[0].Waited? && tr[0].marker == marker then 1 else 0) + Waits(tr[1..], marker)
  }

  lemma {:induction false} KeysAppend(a: seq<Event>, b: seq<Event>)
    ensures Keys(a + b) == Keys(a) + Keys(b)
    decreases |a|
  {
    if a == [] {
      assert a + b == b;
    } else {
      var head := if IsKey(a[0]) then [a[0]] else [];
      KeysHead(a[0], a[1..] + b);
      assert a + b == [a[0]] + (a[1..] + b);
      KeysAppend(a[1..], b);
      assert head + (Keys(a[1..]) + Keys(b)) == head + Keys(a[1..]) + Keys(b);
    }
  }

  lemma KeysHead(e: Event, rest: seq<Event>)
    ensures Keys([e] + rest) == (if IsKey(e) then [e] else []) + Keys(rest)
  {
    assert ([e] + rest)[1..] == rest;
  }

  lemma {:induction false} WaitsAppend(a: seq<Event>, b: seq<Event>, marker: string)
    ensures Waits(a + b, marker) == Waits(a, marker) + Waits(b, marker)
    decreases |a|
  {
    if a == [] {
      assert a + b == b;
    } else {
      assert (a + b)[0] == a[0] && (a + b)[1..] == a[1..] + b;
      WaitsAppend(a[1..], b, marker);
    }
  }

  lemma {:induction false} PollsAreQuiet(polls: seq<Event>, marker: string)
    requires forall e | e in polls :: e.Poll?
    ensures Keys(polls) == [] && Waits(polls, marker) == 0
  {
    if polls != [] {
      assert polls[0] in polls;
      PollsAreQuiet(polls[1..], marker);
    }
  }

  lemma OneEvent(e: Event, marker: string)
    ensures Keys([e]) == if IsKey(e) then [e] else []
    ensures Waits([e], marker) == if e.Waited? && e.marker == marker then 1 else 0
  {
    assert [e][1..] == [];
  }

  /** No wait for either marker has ended. */
  predicate Quiet(tr: seq<Event>) {
    Waits(tr, READY_MARKER) == 0 && Waits(tr, INPUT_READY_MARKER) == 0
  }

  function Escapes(n: nat): seq<Event> {
    if n == 0 then [] else Escapes(n - 1) + [Escape]
  }

  /** The keys are at most twelve Escapes. */
  ghost predicate FewEscapes(tr: seq<Event>) {
    exists n: nat :: n <= 12 && Keys(tr) == Escapes(n)
  }

  // ----- where keys may stand

  /** The trace ends with a wait that saw `marker`, right after the poll that shows it. */
  predicate EndsSeeing(tr: seq<Event>, marker: string) {
    && |tr| >= 2
    && tr[|tr| - 1].Waited? && tr[|tr| - 1].marker == marker && tr[|tr| - 1].found
    && tr[|tr| - 2].Poll? && Contains(tr[|tr| - 2].pane, marker)
  }

  /** A bare Enter submits a paste or answers the trust banner just seen; an Escape answers the pane just
      captured, which is a dismissable prompt or an escapable option screen. */
  predicate WellPlaced(before: seq<Event>, e: Event) {
    match e
    case Enter => (before != [] && before[|before| - 1].Paste?) || EndsSeeing(before, READY_MARKER)
    case Escape =>
      && before != [] && before[|before| - 1].Capture?
      && var pane := before[|before| - 1].pane;
         Dismissable(pane) || (OptionScreen(pane) && Escapable(pane))
    case _ => true
  }

  predicate Disciplined(tr: seq<Event>) {
    forall i | 0 <= i < |tr| :: WellPlaced(tr[..i], tr[i])
  }

  lemma DisciplinedAppend(tr: seq<Event>, e: Event)
    requires Disciplined(tr) && WellPlaced(tr, e)
    ensures Disciplined(tr + [e])
  {
    var all := tr + [e];
    forall i | 0 <= i < |all| ensures WellPlaced(all[..i], all[i]) {
      if i < |tr| { assert all[..i] == tr[..i]; } else { assert all[..i] == tr; }
    }
  }

  lemma {:induction false} DisciplinedPolls(tr: seq<Event>, polls: seq<Event>)
    requires Disciplined(tr) && forall e | e in polls :: e.Poll?
    ensures Disciplined(tr + polls)
    decreases |polls|
  {
    if polls == [] {
      assert tr + polls == tr;
    } else {
      var n := |polls| - 1;
      assert polls[n] in polls;
      DisciplinedPolls(tr, polls[..n]);
      DisciplinedAppend(tr + polls[..n], polls[n]);
      assert tr + polls == tr + polls[..n] + [polls[n]];
    }
  }

  /** Polls, and the event that ends their wait, hold no key. */
  lemma WaitIsQuiet(before: seq<Event>, polls: seq<Event>, tail: seq<Event>)
    requires Disciplined(before) && forall e | e in polls :: e.Poll?
    requires tail == [] || (|tail| == 1 && tail[0].Waited?)
    ensures Disciplined(before + (polls + tail)) && Keys(polls + tail) == []
    ensures Waits(polls + tail, READY_MARKER) == if tail != [] && tail[0].marker == READY_MARKER then 1 else 0
    ensures Waits(polls + tail, INPUT_READY_MARKER) == if tail != [] && tail[0].marker == INPUT_READY_MARKER then 1 else 0
  {
    DisciplinedPolls(before, polls);
    PollsAreQuiet(polls, READY_MARKER);
    PollsAreQuiet(polls, INPUT_READY_MARKER);
    if tail == [] {
      assert polls + tail == polls;
    } else {
      assert tail == [tail[0]];
      DisciplinedAppend(before + polls, tail[0]);
      assert before + (polls + tail) == before + polls + [tail[0]];
      OneEvent(tail[0], READY_MARKER);
      OneEvent(tail[0], INPUT_READY_MARKER);
      KeysAppend(polls, tail);
      WaitsAppend(polls, tail, READY_MARKER);
      WaitsAppend(polls, tail, INPUT_READY_MARKER);
    }
  }

  lemma SeeingAtTheEnd(before: seq<Event>, tr: seq<Event>, marker: string)
    requires EndsSeeing(tr, marker)
    ensures EndsSeeing(before + tr, marker)
  {
    var all := before + tr;
    assert all[|all| - 1] == tr[|tr| - 1] && all[|all| - 2] == tr[|tr| - 2];
  }

  // ----- whole runs

  /** The agent has just been seen at input-ready: after the trust Enter by a wait for it, otherwise by a single
      capture. */
  predicate ReadyAtEnd(tr: seq<Event>) {
    if Enter in tr then EndsSeeing(tr, "bypass permissions on") else EndsShowingReady(tr)
  }

  lemma ReadyAfter(a: seq<Event>, b: seq<Event>)
    requires Enter !in a && ReadyAtEnd(b)
    ensures ReadyAtEnd(a + b)
  {
    if Enter in b { SeeingAtTheEnd(a, b, "bypass permissions on"); }
    assert Enter in a + b <==> Enter in b;
  }

  lemma ReadyAfterEnter(a: seq<Event>, b: seq<Event>)
    requires Enter in a && EndsSeeing(b, "bypass permissions on")
    ensures ReadyAtEnd(a + b)
  {
    SeeingAtTheEnd(a, b, "bypass permissions on");
  }

  lemma {:induction false} KeysHoldEveryKey(tr: seq<Event>, e: Event)
    requires e in tr && IsKey(e)
    ensures e in Keys(tr)
  {
    if tr[0] != e { KeysHoldEveryKey(tr[1..], e); }
  }

  predicate NoPaste(tr: seq<Event>) {
    forall e | e in tr :: !e.Paste?
  }

  /** The keys are at most one Enter, then at most twelve Escapes. */
  ghost predicate KeyShape(tr: seq<Event>) {
    exists trust: seq<Event>, n: nat :: (trust == [] || trust == [Enter]) && n <= 12 && Keys(tr) == trust + Escapes(n)
  }

  /** Every Escape directly follows the capture of a pane that advertises Esc and is neither the trust prompt
      nor input-ready. */
  predicate Declines(tr: seq<Event>) {
    forall i | 0 <= i < |tr| && tr[i].Escape? :: i > 0 && tr[i - 1].Capture? && Dismissable(tr[i - 1].pane)
  }

  /** What may be typed before the option screen: the trust Enter and the readiness Escapes. */
  ghost predicate Careful(tr: seq<Event>) {
    KeyShape(tr) && Declines(tr) && AnsweredOnceTrusted(tr)
  }

  lemma {:induction false} EscapesOnly(n: nat)
    ensures forall e | e in Escapes(n) :: e == Escape
    ensures |Escapes(n)| == n
  {
    if n > 0 { EscapesOnly(n - 1); }
  }

  lemma ShapeHasNoPaste(tr: seq<Event>)
    requires KeyShape(tr)
    ensures NoPaste(tr)
  {
    forall e | e in tr ensures !e.Paste? {
      if e.Paste? {
        KeysHoldEveryKey(tr, e);
        var trust: seq<Event>, n: nat :| (trust == [] || trust == [Enter]) && n <= 12 && Keys(tr) == trust + Escapes(n);
        EscapesOnly(n);
      }
    }
  }

  /** The barriers, all passed. */
  function Probes(dsn: string): seq<Event> {
    (if dsn != "" then [ProbeDb(true)] else []) + [ProbeVault(true)]
  }

  /** The operations before anything is typed at the agent. */
  function Opening(dsn: string): seq<Event> {
    [NewSession] + Probes(dsn) + [StartClaude]
  }

  const MAX_ARG_STRLEN := 131072

  function Utf8Length(text: string): nat {
    if text == "" then 0
    else
      var n := text[0] as int;
      (if n < 0x80 then 1 else if n < 0x800 then 2 else if n < 0x10000 then 3 else 4) + Utf8Length(text[1..])
  }

  /** The prompt as one paste, then at once a bare Enter; an oversized prompt first goes to a buffer. */
  function Submission(prompt: string): seq<Event> {
    (if Utf8Length(prompt) > MAX_ARG_STRLEN then [LoadBuffer(prompt)] else []) + [Paste(prompt), Enter]
  }

  /** An option screen without escape affordance was captured, and only the warning followed. */
  ghost predicate ScreenRefused(ext: seq<Event>) {
    exists pane :: ext == [Capture(pane), Warned(pane)] && Contains(pane, "Select an option") && !Contains(pane, "esc to")
  }

  /** No option screen was captured, or an escapable one, answered with one Escape and a warning. */
  ghost predicate ScreenPassed(ext: seq<Event>) {
    exists pane ::
      if Contains(pane, "Select an option") then ext == [Capture(pane), Escape, Warned(pane)] && Contains(pane, "esc to")
      else ext == [Capture(pane)]
  }

  lemma PlainPasses(pane: string)
    requires !OptionScreen(pane)
    ensures ScreenPassed([Capture(pane)])
  {
  }

  lemma EscapedPasses(pane: string)
    requires OptionScreen(pane) && Escapable(pane)
    ensures ScreenPassed([Capture(pane), Escape, Warned(pane)])
  {
  }

  lemma UnescapableRefuses(pane: string)
    requires OptionScreen(pane) && !Escapable(pane)
    ensures ScreenRefused([Capture(pane), Warned(pane)])
  {
  }

  /** Both probes have passed, input-ready has just been seen, and the keys so far answered the trust banner and
      blocking prompts only. */
  ghost predicate Readied(tr: seq<Event>, dsn: string) {
    Opening(dsn) <= tr && ReadyAtEnd(tr) && Careful(tr)
  }

  /** Readied, one look for an option screen, then the submission, and nothing after it. */
  ghost predicate Submitted(tr: seq<Event>, prompt: string, dsn: string) {
    exists before, screen :: Readied(before, dsn) && ScreenPassed(screen) && tr == before + screen + Submission(prompt)
  }

  /** Readied, then an option screen without escape affordance; no key follows its capture. */
  ghost predicate Refused(tr: seq<Event>, dsn: string) {
    exists before, screen :: Readied(before, dsn) && ScreenRefused(screen) && tr == before + screen
  }

  /** Why the wait for the agent was given up: no key was pressed, no capture showed input-ready and no wait found
      the trust banner; or the banner was accepted and no wait found input-ready. */
  predicate NeverEngaged(tr: seq<Event>, cause: string) {
    || (cause == "agent-startup" && Keys(tr) == [] && NotUp(tr))
    || (cause == "readiness" && Enter in tr && NotReadied(tr))
  }

  /** A probe that failed, after the ones before it. */
  predicate ProbeFailed(tr: seq<Event>, dsn: string, cause: string) {
    || (cause == "messaging-db" && dsn != "" && tr == [ProbeDb(false)])
    || (cause == "agent-vault" && tr == (if dsn != "" then [ProbeDb(true)] else []) + [ProbeVault(false)])
  }

  /** The run ends with a diagnostic, which names why it was given up. */
  predicate GaveUp(tr: seq<Event>, dsn: string) {
    && tr != [] && tr[|tr| - 1].Diagnostic?
    && var before, cause := tr[..|tr| - 1], tr[|tr| - 1].cause;
       || (before != [] && before[0] == NewSession && ProbeFailed(before[1..], dsn, cause))
       || (Opening(dsn) <= before && NeverEngaged(before, cause))
  }

  lemma UnseenWithoutEnter(tr: seq<Event>, dsn: string)
    requires GaveUp(tr, dsn) && Enter !in tr
    ensures NotUp(tr)
  {
    var n := |tr| - 1;
    assert forall i | 0 <= i < n :: tr[i] == tr[..n][i];
  }

  /** Typing starts only after the opening; without a submission the keys are the trust Enter and the
      readiness Escapes. */
  ghost predicate Unsubmitted(tr: seq<Event>, dsn: string) {
    Careful(tr) && (Keys(tr) != [] ==> Opening(dsn) <= tr)
  }

  lemma {:induction false} MultisetOfKeys(tr: seq<Event>, e: Event)
    requires IsKey(e)
    ensures multiset(Keys(tr))[e] == multiset(tr)[e]
  {
    if tr != [] {
      MultisetOfKeys(tr[1..], e);
      assert tr == [tr[0]] + tr[1..];
      assert Keys(tr) == (if IsKey(tr[0]) then [tr[0]] else []) + Keys(tr[1..]);
    }
  }

  lemma {:induction false} EscapesHoldNoEnter(n: nat)
    ensures multiset(Escapes(n))[Enter] == 0 && multiset(Escapes(n))[Escape] == n
  {
    if n > 0 { EscapesHoldNoEnter(n - 1); }
  }

  lemma ShapeCounts(tr: seq<Event>)
    requires KeyShape(tr)
    ensures multiset(tr)[Enter] <= 1 && multiset(tr)[Escape] <= 12
  {
    MultisetOfKeys(tr, Enter);
    MultisetOfKeys(tr, Escape);
    var trust: seq<Event>, k: nat :| (trust == [] || trust == [Enter]) && k <= 12 && Keys(tr) == trust + Escapes(k);
    EscapesHoldNoEnter(k);
  }

  lemma SubmissionEnd(prompt: string)
    ensures var tail := Submission(prompt);
            && |tail| >= 2 && tail[|tail| - 2] == Paste(prompt) && tail[|tail| - 1] == Enter
            && (forall i | 0 <= i < |tail| - 2 :: !tail[i].Paste?)
            && multiset(tail)[Enter] == 1 && multiset(tail)[Escape] == 0
  {
  }

  lemma ScreenCounts(screen: seq<Event>)
    requires ScreenPassed(screen)
    ensures NoPaste(screen) && multiset(screen)[Enter] == 0 && multiset(screen)[Escape] <= 1
  {
  }

  lemma CountsAdd(a: seq<Event>, b: seq<Event>, c: seq<Event>, e: Event)
    ensures multiset(a + b + c)[e] == multiset(a)[e] + multiset(b)[e] + multiset(c)[e]
  {
  }

  /** A submitted run presses Enter at most twice and Escape at most thirteen times ... */
  lemma SubmittedKeyCounts(tr: seq<Event>, prompt: string, dsn: string)
    requires Submitted(tr, prompt, dsn)
    ensures 1 <= multiset(tr)[Enter] <= 2 && multiset(tr)[Escape] <= 13
  {
    var before, screen :| Readied(before, dsn) && ScreenPassed(screen) && tr == before + screen + Submission(prompt);
    ShapeCounts(before);
    ScreenCounts(screen);
    SubmissionEnd(prompt);
    CountsAdd(before, screen, Submission(prompt), Enter);
    CountsAdd(before, screen, Submission(prompt), Escape);
  }

  /** ... and pastes exactly once, at once followed by its last Enter. */
  lemma SubmittedOnce(tr: seq<Event>, prompt: string, dsn: string, i: nat)
    requires Submitted(tr, prompt, dsn) && i < |tr|
    ensures |tr| >= 2 && tr[|tr| - 2] == Paste(prompt) && tr[|tr| - 1] == Enter
    ensures tr[i].Paste? <==> i == |tr| - 2
  {
    var before, screen :| Readied(before, dsn) && ScreenPassed(screen) && tr == before + screen + Submission(prompt);
    ShapeHasNoPaste(before);
    ScreenCounts(screen);
    SubmissionEnd(prompt);
    PasteAt(before, screen, Submission(prompt), i);
  }

  /** How many characters lie at or above a code point. */
  function CharsFrom(text: string, code: nat): nat {
    if text == "" then 0 else (if text[0] as int >= code then 1 else 0) + CharsFrom(text[1..], code)
  }

  /** One byte for each character, and one more at each of the three code points where UTF-8 grows. */
  function Bytes(text: string): nat {
    |text| + CharsFrom(text, 0x80) + CharsFrom(text, 0x800) + CharsFrom(text, 0x10000)
  }

  lemma {:induction false} Utf8LengthIsBytes(text: string)
    ensures Utf8Length(text) == Bytes(text)
  {
    if text != "" { Utf8LengthIsBytes(text[1..]); }
  }

  /** A submitted run streams the prompt through a buffer if and only if it has more than 128 KiB. */
  lemma SubmittedBuffers(tr: seq<Event>, prompt: string, dsn: string)
    requires Submitted(tr, prompt, dsn)
    ensures |tr| >= 3 && (tr[|tr| - 3] == LoadBuffer(prompt) <==> Bytes(prompt) > 131072)
  {
    var before, screen :| Readied(before, dsn) && ScreenPassed(screen) && tr == before + screen + Submission(prompt);
    Utf8LengthIsBytes(prompt);
    BufferAt(before, screen, Submission(prompt), tr);
  }

  /** It begins with the session, the messaging probe unless there is no DSN, the vault probe and the agent program,
      and nothing is typed before that. */
  lemma SubmittedOpening(tr: seq<Event>, prompt: string, dsn: string)
    requires Submitted(tr, prompt, dsn)
    ensures dsn == "" ==> |tr| >= 3 && tr[..3] == [NewSession, ProbeVault(true), StartClaude]
    ensures dsn != "" ==> |tr| >= 4 && tr[..4] == [NewSession, ProbeDb(true), ProbeVault(true), StartClaude]
  {
    var before, screen :| Readied(before, dsn) && ScreenPassed(screen) && tr == before + screen + Submission(prompt);
    var opening := Opening(dsn);
    assert tr[..|opening|] == before[..|opening|] == opening;
  }

  lemma BufferAt(before: seq<Event>, screen: seq<Event>, tail: seq<Event>, tr: seq<Event>)
    requires ScreenPassed(screen) && tr == before + screen + tail && 2 <= |tail| <= 3
    ensures |tr| >= 3 && tr[|tr| - 3] == if |tail| == 3 then tail[0] else screen[|screen| - 1]
    ensures screen != [] && !screen[|screen| - 1].LoadBuffer?
  {
    var n := |before + screen|;
    assert |tail| == 3 ==> tr[n] == tail[0];
    assert |tail| == 2 ==> tr[n - 1] == screen[|screen| - 1];
  }

  lemma PasteAt(before: seq<Event>, screen: seq<Event>, tail: seq<Event>, i: nat)
    requires NoPaste(before) && NoPaste(screen) && |tail| >= 2
    requires forall j | 0 <= j < |tail| - 2 :: !tail[j].Paste?
    requires tail[|tail| - 2].Paste? && !tail[|tail| - 1].Paste?
    requires i < |before + screen + tail|
    ensures var tr := before + screen + tail;
            && tr[|tr| - 2] == tail[|tail| - 2] && tr[|tr| - 1] == tail[|tail| - 1]
            && (tr[i].Paste? <==> i == |tr| - 2)
  {
    var tr, n := before + screen + tail, |before + screen|;
    if i < |before| {
      assert tr[i] == before[i] && before[i] in before;
    } else if i < n {
      assert tr[i] == screen[i - |before|] && screen[i - |before|] in screen;
    } else {
      assert tr[i] == tail[i - n];
    }
  }

  lemma ScreenEscapes(screen: seq<Event>, j: nat)
    requires ScreenPassed(screen) && j < |screen| && screen[j].Escape?
    ensures j == 1 && OptionScreen(screen[0].pane) && Escapable(screen[0].pane)
  {
  }

  lemma EscapeInMiddle(before: seq<Event>, screen: seq<Event>, tail: seq<Event>, i: nat)
    requires forall e | e in tail :: !e.Escape?
    requires |before| <= i < |before + screen + tail| && (before + screen + tail)[i].Escape?
    ensures i - |before| < |screen| && screen[i - |before|].Escape?
  {
    var all, n := before + screen + tail, |before + screen|;
    forall k | n <= k < |all| ensures !all[k].Escape? {
      assert all[k] == tail[k - n] && tail[k - n] in tail;
    }
  }

  /** Up to the option screen, only panes that advertise Esc and show neither the trust prompt nor input-ready
      are answered with Escape; at most one more Escape follows, for an escapable option screen. */
  lemma SubmittedEscapes(tr: seq<Event>, prompt: string, dsn: string) returns (look: nat)
    requires Submitted(tr, prompt, dsn)
    ensures look < |tr| && tr[look].Capture? && ReadyAtEnd(tr[..look])
    ensures Declines(tr[..look]) && AnsweredOnceTrusted(tr[..look])
    ensures forall i | look <= i < |tr| && tr[i].Escape? ::
              i == look + 1 && OptionScreen(tr[look].pane) && Escapable(tr[look].pane)
  {
    var before, screen :| Readied(before, dsn) && ScreenPassed(screen) && tr == before + screen + Submission(prompt);
    look := |before|;
    EscapesFromLook(before, screen, Submission(prompt), tr);
  }

  lemma EscapesFromLook(before: seq<Event>, screen: seq<Event>, tail: seq<Event>, tr: seq<Event>)
    requires ScreenPassed(screen) && tr == before + screen + tail && forall e | e in tail :: !e.Escape?
    ensures |before| < |tr| && tr[..|before|] == before && tr[|before|].Capture?
    ensures forall i | |before| <= i < |tr| && tr[i].Escape? ::
              i == |before| + 1 && OptionScreen(tr[|before|].pane) && Escapable(tr[|before|].pane)
  {
    assert tr[|before|] == screen[0];
    forall i | |before| <= i < |tr| && tr[i].Escape?
      ensures i == |before| + 1 && OptionScreen(tr[|before|].pane) && Escapable(tr[|before|].pane)
    {
      EscapeInMiddle(before, screen, tail, i);
      ScreenEscapes(screen, i - |before|);
    }
  }

  // ----- putting the phases together

  lemma DeclinesAppend(a: seq<Event>, b: seq<Event>)
    requires Declines(a) && Declines(b)
    ensures Declines(a + b)
  {
    var tr := a + b;
    forall i | 0 <= i < |tr| && tr[i].Escape?
      ensures i > 0 && tr[i - 1].Capture? && Dismissable(tr[i - 1].pane)
    {
      if i >= |a| { assert tr[i] == b[i - |a|] && tr[i - 1] == b[i - |a| - 1]; }
    }
  }

  lemma DismissalDeclines(pane: string, name: string)
    requires Dismissable(pane)
    ensures Declines([Capture(pane)] + [Escape, Warned(name)])
  {
  }

  lemma NoEscapeDeclines(tr: seq<Event>)
    requires Escape !in Keys(tr)
    ensures Declines(tr)
  {
    forall i | 0 <= i < |tr| ensures !tr[i].Escape? {
      if tr[i].Escape? { KeysHoldEveryKey(tr, tr[i]); }
    }
  }

  // ----- the readiness loop

  /** What some rounds of the readiness loop have done, with `n` dismissals. */
  ghost predicate Dismissing(tr: seq<Event>, n: nat, rounds: nat) {
    && Keys(tr) == Escapes(n) && n <= rounds && Declines(tr) && Answered(tr)
    && Waits(tr, INPUT_READY_MARKER) <= rounds && Waits(tr, READY_MARKER) == 0
  }

  lemma NothingDismissed()
    ensures Dismissing([], 0, 0)
  {
  }

  lemma OneMoreRound(tr: seq<Event>, more: seq<Event>, n: nat, rounds: nat, dismissed: bool)
    requires Dismissing(tr, n, rounds) && Declines(more) && Answered(more)
    requires Keys(more) == if dismissed then [Escape] else []
    requires Waits(more, INPUT_READY_MARKER) <= 1 && Waits(more, READY_MARKER) == 0
    ensures Dismissing(tr + more, if dismissed then n + 1 else n, rounds + 1)
  {
    KeysAppend(tr, more);
    WaitsAppend(tr, more, INPUT_READY_MARKER);
    WaitsAppend(tr, more, READY_MARKER);
    DeclinesAppend(tr, more);
    AnsweredAppend(tr, more);
    if !dismissed { assert Keys(tr) + [] == Keys(tr); }
  }

  lemma RoundsEnd(tr: seq<Event>, n: nat, rounds: nat)
    requires Dismissing(tr, n, rounds) && rounds <= 12
    ensures FewEscapes(tr) && Declines(tr) && Answered(tr)
    ensures Waits(tr, INPUT_READY_MARKER) <= 12 && Waits(tr, READY_MARKER) == 0
  {
  }

  lemma NoEnterWithoutKeys(tr: seq<Event>)
    requires Keys(tr) == []
    ensures Enter !in tr
  {
    if Enter in tr { KeysHoldEveryKey(tr, Enter); }
  }

  /** Without keys in the first part, the second part alone matters. */
  lemma QuietThenCareful(a: seq<Event>, b: seq<Event>)
    requires Keys(a) == [] && Careful(b)
    ensures Careful(a + b)
  {
    KeysAppend(a, b);
    NoEscapeDeclines(a);
    DeclinesAppend(a, b);
    NoEnterWithoutKeys(a);
    AnsweredAfter(a, b);
    assert Keys(a + b) == Keys(b);
  }

  /** Neither does a stretch without keys and captures change anything. */
  lemma CarefulThenQuiet(a: seq<Event>, b: seq<Event>)
    requires Careful(a) && Keys(b) == [] && NoCapture(b)
    ensures Careful(a + b)
  {
    KeysAppend(a, b);
    NoEscapeDeclines(b);
    DeclinesAppend(a, b);
    AnsweredThenQuiet(a, b);
    assert Keys(a + b) == Keys(a);
  }

  lemma KeylessCareful(tr: seq<Event>)
    requires Keys(tr) == []
    ensures Careful(tr)
  {
    assert Keys(tr) == [] + Escapes(0);
    NoEscapeDeclines(tr);
    NoEnterWithoutKeys(tr);
  }

  /** The trace ends with the trust Enter, its only key. */
  predicate Accepted(tr: seq<Event>) {
    Keys(tr) == [Enter] && tr != [] && tr[|tr| - 1] == Enter
  }

  lemma NoKeysBefore(front: seq<Event>)
    requires |Keys(front + [Enter])| == 1
    ensures Keys(front) == []
  {
    KeysAppend(front, [Enter]);
    OneEvent(Enter, READY_MARKER);
  }

  lemma EnterOnlyAtTheEnd(tr: seq<Event>)
    requires Accepted(tr)
    ensures forall i | 0 <= i < |tr| - 1 :: tr[i] != Enter
  {
    var front := tr[..|tr| - 1];
    assert |Keys(front + [Enter])| == 1 by { assert tr == front + [Enter]; }
    NoKeysBefore(front);
    NoEnterWithoutKeys(front);
    forall i | 0 <= i < |tr| - 1 ensures tr[i] != Enter {
      assert front[i] in front;
    }
  }

  lemma AcceptedCareful(tr: seq<Event>)
    requires Accepted(tr)
    ensures Careful(tr)
  {
    assert Keys(tr) == [Enter] + Escapes(0);
    NoEscapeDeclines(tr);
    EnterOnlyAtTheEnd(tr);
    NoCaptureAnswered([]);
    AnsweredAfter(tr, []);
    assert tr + [] == tr;
  }

  lemma WaitCareful(a: seq<Event>, b: seq<Event>)
    requires Accepted(a) && FewEscapes(b) && Declines(b) && Answered(b)
    ensures Careful(a + b)
  {
    var n: nat :| n <= 12 && Keys(b) == Escapes(n);
    KeysAppend(a, b);
    NoEscapeDeclines(a);
    DeclinesAppend(a, b);
    EnterOnlyAtTheEnd(a);
    AnsweredAfter(a, b);
    assert Keys(a + b) == [Enter] + Escapes(n);
  }

  lemma {:induction false} NoWaitsNotReadied(tr: seq<Event>)
    requires Waits(tr, INPUT_READY_MARKER) == 0
    ensures NotReadied(tr)
  {
    if tr != [] {
      NoWaitsNotReadied(tr[1..]);
      forall i | 0 <= i < |tr| && tr[i].Waited? && tr[i].marker == "bypass permissions on" ensures !tr[i].found {
        if i > 0 { assert tr[i] == tr[1..][i - 1]; }
      }
    }
  }
}
