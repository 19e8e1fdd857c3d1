/** What the waits and captures of a session have seen, and which captures were answered. */
module SessionLooks {
  import opened Text
  import opened Readiness
  import opened PaneDriver

  /** The trace of one wait: its polls, and unless it was cut short how it ended. */
  predicate OneWait(tr: seq<Event>, marker: string, outcome: WaitOutcome) {
    if outcome == Cut then forall i | 0 <= i < |tr| :: tr[i].Poll?
    else
      && tr != [] && tr[|tr| - 1].Waited? && tr[|tr| - 1].marker == marker
      && (tr[|tr| - 1].found <==> outcome == Seen)
      && forall i | 0 <= i < |tr| - 1 :: tr[i].Poll?
  }

  /** No capture shows input-ready, and no wait has found the trust banner. */
  predicate NotUp(tr: seq<Event>) {
    forall i | 0 <= i < |tr| ::
      && (tr[i].Capture? ==> !Contains(tr[i].pane, "bypass permissions on"))
      && (tr[i].Waited? && tr[i].marker == "Accessing workspace:" ==> !tr[i].found)
  }

  /** No wait has found input-ready. */
  predicate NotReadied(tr: seq<Event>) {
    forall i | 0 <= i < |tr| && tr[i].Waited? && tr[i].marker == "bypass permissions on" :: !tr[i].found
  }

  /** Every captured dismissable pane is answered at once with Escape. */
  predicate Answered(tr: seq<Event>) {
    forall i | 0 <= i < |tr| && tr[i].Capture? && Dismissable(tr[i].pane) :: i + 1 < |tr| && tr[i + 1].Escape?
  }

  /** ... at least after the trust Enter. */
  predicate AnsweredOnceTrusted(tr: seq<Event>) {
    forall i | 0 <= i < |tr| && tr[i].Capture? && Dismissable(tr[i].pane) && Enter in tr[..i] ::
      i + 1 < |tr| && tr[i + 1].Escape?
  }

  predicate NoCapture(tr: seq<Event>) {
    forall i | 0 <= i < |tr| :: !tr[i].Capture?
  }

  /** The last event captured a pane at input-ready. */
  predicate EndsShowingReady(tr: seq<Event>) {
    tr != [] && tr[|tr| - 1].Capture? && Contains(tr[|tr| - 1].pane, "bypass permissions on")
  }

  // ----- one wait

  lemma PollsThenEnd(polls: seq<Event>, marker: string, budget: real, outcome: WaitOutcome)
    requires PollsOnly(polls)
    ensures OneWait(polls + (if outcome == Cut then [] else [Waited(marker, budget, outcome == Seen)]), marker, outcome)
  {
    var tail := if outcome == Cut then [] else [Waited(marker, budget, outcome == Seen)];
    var tr := polls + tail;
    forall i | 0 <= i < |polls| ensures tr[i].Poll? {
      assert tr[i] == polls[i];
    }
    if outcome == Cut { assert tr == polls; }
  }

  lemma BannerWait(tr: seq<Event>, outcome: WaitOutcome)
    requires OneWait(tr, READY_MARKER, outcome)
    ensures outcome != Seen ==> NotUp(tr)
    ensures outcome == Seen ==> NotUp(tr[..|tr| - 1])
  {
  }

  lemma ReadyWait(tr: seq<Event>, outcome: WaitOutcome)
    requires OneWait(tr, INPUT_READY_MARKER, outcome)
    ensures NoCapture(tr) && Answered(tr)
    ensures outcome != Seen ==> NotReadied(tr)
    ensures outcome == Seen ==> NotReadied(tr[..|tr| - 1])
  {
  }

  // ----- concatenation

  lemma NotUpAppend(a: seq<Event>, b: seq<Event>)
    requires NotUp(a) && NotUp(b)
    ensures NotUp(a + b)
  {
    var tr := a + b;
    forall i | 0 <= i < |tr|
      ensures tr[i].Capture? ==> !Contains(tr[i].pane, "bypass permissions on")
      ensures tr[i].Waited? && tr[i].marker == "Accessing workspace:" ==> !tr[i].found
    {
      assert tr[i] == if i < |a| then a[i] else b[i - |a|];
    }
  }

  /** Up to the last event of the second part. */
  lemma NotUpUntilLast(a: seq<Event>, b: seq<Event>)
    requires b != [] && NotUp(a) && NotUp(b[..|b| - 1])
    ensures NotUp((a + b)[..|a + b| - 1])
  {
    NotUpAppend(a, b[..|b| - 1]);
    assert (a + b)[..|a + b| - 1] == a + b[..|b| - 1];
  }

  lemma NotReadiedAppend(a: seq<Event>, b: seq<Event>)
    requires NotReadied(a) && NotReadied(b)
    ensures NotReadied(a + b)
  {
    var tr := a + b;
    forall i | 0 <= i < |tr| && tr[i].Waited? && tr[i].marker == "bypass permissions on" ensures !tr[i].found {
      assert tr[i] == if i < |a| then a[i] else b[i - |a|];
    }
  }

  lemma AnsweredAppend(a: seq<Event>, b: seq<Event>)
    requires Answered(a) && Answered(b)
    ensures Answered(a + b)
  {
    var tr := a + b;
    forall i | 0 <= i < |tr| && tr[i].Capture? && Dismissable(tr[i].pane)
      ensures i + 1 < |tr| && tr[i + 1].Escape?
    {
      if i < |a| {
        assert a[i] == tr[i] && a[i + 1] == tr[i + 1];
      } else {
        assert b[i - |a|] == tr[i] && b[i - |a| + 1] == tr[i + 1];
      }
    }
  }

  lemma NoCaptureAnswered(tr: seq<Event>)
    requires NoCapture(tr)
    ensures Answered(tr)
  {
  }

  /** A captured pane, answered or not. */
  lemma LookAnswered(pane: string, name: string)
    ensures Answered([Capture(pane)] + [Escape, Warned(name)])
    ensures !Dismissable(pane) ==> Answered([Capture(pane)])
  {
  }

  /** The first part holds no Enter but as its last event. */
  lemma AnsweredAfter(a: seq<Event>, b: seq<Event>)
    requires (forall i | 0 <= i < |a| - 1 :: a[i] != Enter)
    requires Answered(b) || (AnsweredOnceTrusted(b) && Enter !in a)
    ensures AnsweredOnceTrusted(a + b)
  {
    var tr := a + b;
    forall i | 0 <= i < |a| ensures Enter !in tr[..i] {
      assert forall j | 0 <= j < i :: tr[j] == a[j];
    }
    forall i | 0 <= i < |tr| && tr[i].Capture? && Dismissable(tr[i].pane) && Enter in tr[..i]
      ensures i + 1 < |tr| && tr[i + 1].Escape?
    {
      assert b[i - |a|] == tr[i];
      if Enter !in a { assert tr[..i] == a + b[..i - |a|]; }
      assert b[i - |a| + 1] == tr[i + 1];
    }
  }

  lemma AnsweredThenQuiet(a: seq<Event>, b: seq<Event>)
    requires AnsweredOnceTrusted(a) && NoCapture(b)
    ensures AnsweredOnceTrusted(a + b)
  {
    var tr := a + b;
    assert forall i | |a| <= i < |tr| :: tr[i] == b[i - |a|];
    forall i | 0 <= i < |tr| && tr[i].Capture? && Dismissable(tr[i].pane) && Enter in tr[..i]
      ensures i + 1 < |tr| && tr[i + 1].Escape?
    {
      assert tr[i] == a[i] && tr[..i] == a[..i];
      assert tr[i + 1] == a[i + 1];
    }
  }
}
