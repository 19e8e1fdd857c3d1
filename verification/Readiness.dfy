/** The pane markers and the classifier of the readiness wait. */
module Readiness {
  import opened Basics
  import opened Text

  const READY_MARKER := "Accessing workspace:"
  const INPUT_READY_MARKER := "bypass permissions on"
  const OPTION_SCREEN_MARKER := "Select an option"
  const ESCAPE_AFFORDANCE_MARKER := "esc to"
  const TRUST_MARKERS := ["trust this folder", "Quick safety check"]
  const ESCAPE_MARKERS := ["esc to", "esc to cancel"]
  const RENDERER_MARKER := "Try the new fullscreen renderer?"
  const UNNAMED_PROMPT := "an unexpected interactive prompt"

  const TIMEOUT_SECONDS := 60.0
  const POLL_SECONDS := 5.0
  const PANE_POLL_SECONDS := 0.5

  predicate ContainsAny(pane: string, markers: seq<string>) {
    exists m | m in markers :: Contains(pane, m)
  }

  /** The first line that is not blank, stripped. */
  function FirstInk(lines: seq<string>): Option<string> {
    if lines == [] then None
    else if Strip(lines[0]) != "" then Some(Strip(lines[0]))
    else FirstInk(lines[1..])
  }

  /** `_readiness_wait_blocking_prompt` */
  function BlockingPrompt(pane: string): Option<string> {
    if pane == "" then None
    else if Contains(pane, INPUT_READY_MARKER) then None
    else if ContainsAny(pane, TRUST_MARKERS) then None
    else if !ContainsAny(Lower(pane), ESCAPE_MARKERS) then None
    else if Contains(pane, RENDERER_MARKER) then Some(RENDERER_MARKER)
    else match FirstInk(SplitLines(pane))
      case Some(line) => Some(line)
      case None => Some(UNNAMED_PROMPT)
  }

  /** Not at input-ready, not the trust prompt, and advertising Esc in any letter case. */
  predicate Dismissable(pane: string) {
    && !Contains(pane, INPUT_READY_MARKER)
    && !Contains(pane, "trust this folder") && !Contains(pane, "Quick safety check")
    && Contains(Lower(pane), "esc to")
  }

  lemma PrefixContained(text: string, whole: string, n: nat)
    requires n <= |whole| && Contains(text, whole)
    ensures Contains(text, whole[..n])
  {
    var i :| 0 <= i <= |text| && OccursAt(text, whole, i);
    assert text[i..i + |whole|][..n] == text[i..i + n];
    assert OccursAt(text, whole[..n], i);
  }

  lemma {:induction false} FirstInkFound(lines: seq<string>, j: nat)
    requires j < |lines| && !Blank(lines[j])
    ensures FirstInk(lines).Some? && FirstInk(lines).value != ""
    decreases |lines|
  {
    StripEmptyIffBlank(lines[0]);
    if Strip(lines[0]) == "" {
      assert lines[1..][j - 1] == lines[j];
      FirstInkFound(lines[1..], j - 1);
    }
  }

  /** The name is the first line with visible text, without the white space around it. */
  ghost predicate FirstVisible(lines: seq<string>, name: string) {
    name != "" && exists j | 0 <= j < |lines| :: StripsTo(lines[j], name) && forall i | 0 <= i < j :: Blank(lines[i])
  }

  lemma {:induction false} FirstInkIsFirstVisible(lines: seq<string>)
    requires FirstInk(lines).Some?
    ensures FirstVisible(lines, FirstInk(lines).value)
  {
    StripIsTheCore(lines[0]);
    StripEmptyIffBlank(lines[0]);
    if Strip(lines[0]) == "" {
      var name, rest := FirstInk(lines).value, lines[1..];
      FirstInkIsFirstVisible(rest);
      var j :| 0 <= j < |rest| && StripsTo(rest[j], name) && forall i | 0 <= i < j :: Blank(rest[i]);
      assert lines[j + 1] == rest[j];
      forall i | 0 <= i < j + 1 ensures Blank(lines[i]) {
        if i > 0 { assert lines[i] == rest[i - 1]; }
      }
    }
  }

  /** Lower-casing neither makes nor removes a visible 'e'. */
  lemma EscIsVisible(pane: string)
    requires Contains(Lower(pane), "esc to")
    ensures exists at | 0 <= at < |pane| :: !IsSpace(pane[at])
  {
    var low := Lower(pane);
    var i :| 0 <= i <= |low| && OccursAt(low, "esc to", i);
    assert low[i..i + 6][0] == 'e' && low[i] == 'e';
    assert LowerChar(pane[i]) == 'e';
    assert !IsSpace(pane[i]);
  }

  /** A pane blocks exactly when it is dismissable, and it is then named by the renderer question or
      by its first line with visible text; the unnamed fallback is never reached. */
  lemma BlockingIffDismissable(pane: string)
    ensures BlockingPrompt(pane).Some? <==> Dismissable(pane)
    ensures BlockingPrompt(pane).Some? && !Contains(pane, RENDERER_MARKER) ==>
              FirstInk(SplitLines(pane)) == BlockingPrompt(pane) && FirstVisible(SplitLines(pane), BlockingPrompt(pane).value)
    ensures Dismissable(pane) && Contains(pane, "Try the new fullscreen renderer?") ==>
              BlockingPrompt(pane) == Some("Try the new fullscreen renderer?")
  {
    var low := Lower(pane);
    assert "esc to cancel"[..6] == "esc to";
    if Contains(low, "esc to cancel") { PrefixContained(low, "esc to cancel", 6); }
    assert ESCAPE_MARKERS[0] == "esc to" && ESCAPE_MARKERS[1] == "esc to cancel";
    assert ContainsAny(low, ESCAPE_MARKERS) <==> Contains(low, "esc to");
    assert TRUST_MARKERS[0] == "trust this folder" && TRUST_MARKERS[1] == "Quick safety check";
    assert ContainsAny(pane, TRUST_MARKERS) <==> Contains(pane, "trust this folder") || Contains(pane, "Quick safety check");
    if Dismissable(pane) {
      EscIsVisible(pane);
      var at :| 0 <= at < |pane| && !IsSpace(pane[at]);
      InkIsOnSomeLine(pane, at);
      var j :| 0 <= j < |SplitLines(pane)| && !Blank(SplitLines(pane)[j]);
      FirstInkFound(SplitLines(pane), j);
      FirstInkIsFirstVisible(SplitLines(pane));
    }
  }

  // ----- option screens

  predicate OptionScreen(pane: string) {
    Contains(pane, OPTION_SCREEN_MARKER)
  }

  predicate Escapable(pane: string) {
    Contains(pane, ESCAPE_AFFORDANCE_MARKER)
  }

  /** Every escapable pane also reads as advertising Esc once lower-cased. */
  lemma EscapableLowered(pane: string)
    requires Escapable(pane)
    ensures Contains(Lower(pane), "esc to")
  {
    var i :| 0 <= i <= |pane| && OccursAt(pane, "esc to", i);
    LoweredOccurrence(pane, i);
  }

  predicate HasCapital(s: string) {
    exists j | 0 <= j < |s| :: 'A' <= s[j] <= 'Z'
  }

  lemma LowerChangesCapitals(s: string)
    ensures Lower(s) == s <==> !HasCapital(s)
  {
    if !HasCapital(s) {
      assert forall j | 0 <= j < |s| :: Lower(s)[j] == s[j];
    }
    if j :| 0 <= j < |s| && 'A' <= s[j] <= 'Z' {
      assert Lower(s)[j] != s[j];
    }
  }

  /** An occurrence of the lower-cased affordance that is spelled with a capital letter in the pane. */
  predicate CapitalAt(pane: string, i: int)
    requires 0 <= i <= |pane| - 6
  {
    HasCapital(pane[i..i + 6])
  }

  lemma LowerUnlessCapital(pane: string, i: int)
    requires OccursAt(Lower(pane), "esc to", i)
    ensures OccursAt(pane, "esc to", i) <==> !CapitalAt(pane, i)
  {
    var spelled := pane[i..i + 6];
    assert Lower(spelled) == Lower(pane)[i..i + 6] == "esc to";
    LowerChangesCapitals(spelled);
  }

  /** The option-screen check does not lower-case the pane.  A screen that the readiness wait would dismiss is
      refused afterwards if and only if every place that advertises Esc spells it with a capital letter. */
  lemma RefusedIffAlwaysCapital(pane: string)
    requires Dismissable(pane) && OptionScreen(pane)
    ensures !Escapable(pane) <==> forall i | OccursAt(Lower(pane), "esc to", i) :: CapitalAt(pane, i)
  {
    var low := Lower(pane);
    forall i | OccursAt(low, "esc to", i) ensures OccursAt(pane, "esc to", i) <==> !CapitalAt(pane, i) {
      LowerUnlessCapital(pane, i);
    }
    if Escapable(pane) {
      var i :| 0 <= i <= |pane| && OccursAt(pane, "esc to", i);
      LoweredOccurrence(pane, i);
      assert OccursAt(low, "esc to", i) && !CapitalAt(pane, i);
    }
  }

  lemma LoweredOccurrence(pane: string, i: int)
    requires OccursAt(pane, "esc to", i)
    ensures OccursAt(Lower(pane), "esc to", i)
  {
    forall k | 0 <= k < 6 ensures Lower(pane)[i..i + 6][k] == "esc to"[k] {
      OccurrenceChar(pane, "esc to", i, k);
    }
    assert Lower(pane)[i..i + 6] == "esc to";
  }

  /** Such screens exist: any option screen with a capitalised affordance and none of these letters. */
  lemma CapitalEscIsRefused(tail: string)
    requires 's' !in tail && 'b' !in tail && 'u' !in tail && 'Q' !in tail
    requires Contains(Lower(tail), "esc to")
    ensures var pane := OPTION_SCREEN_MARKER + tail; Dismissable(pane) && OptionScreen(pane) && !Escapable(pane)
  {
    var pane := OPTION_SCREEN_MARKER + tail;
    AbsentInBoth(OPTION_SCREEN_MARKER, tail, INPUT_READY_MARKER, 0);
    AbsentInBoth(OPTION_SCREEN_MARKER, tail, "trust this folder", 2);
    AbsentInBoth(OPTION_SCREEN_MARKER, tail, "Quick safety check", 0);
    AbsentInBoth(OPTION_SCREEN_MARKER, tail, "esc to", 1);
    assert OccursAt(pane, OPTION_SCREEN_MARKER, 0);
    LowerAppend(OPTION_SCREEN_MARKER, tail);
    OccursBehind(Lower(OPTION_SCREEN_MARKER), Lower(tail), "esc to");
  }

  lemma AbsentInBoth(front: string, back: string, pattern: string, k: nat)
    requires k < |pattern| && pattern[k] !in front && pattern[k] !in back
    ensures !Contains(front + back, pattern)
  {
    AbsentChar(front + back, pattern, k);
  }

  /** There is a screen which the readiness wait dismisses and the option-screen check refuses. */
  lemma ChecksDisagree()
    ensures exists pane :: Dismissable(pane) && OptionScreen(pane) && !Escapable(pane)
  {
    var tail := "\nESC to cancel";
    assert Lower(tail)[1..7] == "esc to";
    assert OccursAt(Lower(tail), "esc to", 1);
    CapitalEscIsRefused(tail);
    var pane := OPTION_SCREEN_MARKER + tail;
    assert Dismissable(pane) && OptionScreen(pane) && !Escapable(pane);
  }
}
