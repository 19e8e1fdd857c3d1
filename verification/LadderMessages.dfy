/** Which stream of a failing command the repair ladder listens to, and which failures it knows. */
module LadderMessages {
  import opened Basics
  import opened Text
  import opened BeadsScripts
  import opened Ladder

  // ----- the streams

  /** What the ladder can tell apart: the exit, stderr, and stdout where stderr is empty. */
  predicate SameVoice(a: ExecResult, b: ExecResult) {
    a.returncode == b.returncode && a.stderr == b.stderr && (a.stderr == "" ==> a.stdout == b.stdout)
  }

  /** Two environments that differ only in the stdout of bootstraps that wrote to stderr. */
  predicate SameVoices(a: LadderEnv, b: LadderEnv) {
    && WellFormed(a) && WellFormed(b)
    && (forall i | 0 <= i < 3 :: SameVoice(a.boots[i].result, b.boots[i].result))
    && a.create.returncode == b.create.returncode
  }

  /** The same repairs were tried, with the same exits, one after the other. */
  predicate SameRepair(a: seq<Action>, b: seq<Action>) {
    |a| == |b| && (a != [] ==> (a[0].Create? <==> b[0].Create?) && (a[0].Seed? <==> b[0].Seed?) && (a[0].Heal? <==> b[0].Heal?))
  }

  /** What was written to stdout beside stderr is ignored: the same repairs are tried, as long as the seed script
      ends the same way. */
  lemma StdoutIsIgnored(a: LadderEnv, b: LadderEnv, run: Run, other: Run)
    requires SameVoices(a, b) && Follows(a, run) && Follows(b, other)
    ensures SameRepair(run.creation, other.creation)
    ensures run.seeding == [] <==> other.seeding == []
    ensures (run.seeding != [] ==> run.seeding[0] == other.seeding[0]) ==>
              SameRepair(run.seeding, other.seeding) && SameRepair(run.healing, other.healing)
  {
    assert SameVoice(a.boots[0].result, b.boots[0].result) && SameVoice(a.boots[1].result, b.boots[1].result)
        && SameVoice(a.boots[2].result, b.boots[2].result);
    assert SameVoice(AfterCreation(a, run), AfterCreation(b, other));
    if run.seeding != [] ==> run.seeding[0] == other.seeding[0] {
      assert |run.seeding| == |other.seeding|;
      assert SameVoice(AfterSeeding(a, run), AfterSeeding(b, other));
    }
  }

  // ----- the messages

  lemma OccursBetween(front: string, said: string, back: string, pattern: string)
    requires Contains(said, pattern)
    ensures Contains(front + said + back, pattern)
  {
    var i :| 0 <= i <= |said| && OccursAt(said, pattern, i);
    var text := front + said + back;
    assert text[|front| + i..|front| + i + |pattern|] == said[i..i + |pattern|];
    assert OccursAt(text, pattern, |front| + i);
  }

  lemma Said(front: string, said: string, back: string, pattern: string)
    requires Contains(Lower(said), pattern)
    ensures Contains(Lower(front + said + back), pattern)
  {
    LowerAppend(front + said, back);
    LowerAppend(front, said);
    OccursBetween(Lower(front), Lower(said), Lower(back), pattern);
  }

  /** In any letter case and amid any other text, these failures are recognised. */
  lemma KnownFailures(front: string, said: string, back: string)
    ensures Lower(said) == "repository not found" ==> IsRepoNotFound(front + said + back)
    ensures Lower(said) == "git remote has no branches" ==> IsEmptyRemoteFailure(front + said + back)
    ensures Lower(said) == "contains no dolt data" ==> IsEmptyRemoteFailure(front + said + back)
    ensures Lower(said) == "#4259" && !IsEmptyRemoteFailure(front + said + back) ==>
              IsSchemaSkewRefusal(front + said + back)
  {
    ContainsItself(Lower(said));
    Said(front, said, back, Lower(said));
  }

  /** The older empty-remote wording may be spread over the message. */
  lemma SpreadFailure(front: string, said: string, between: string, told: string, back: string)
    requires Lower(said) == "no branches" && Lower(told) == "initialize"
    ensures IsEmptyRemoteFailure(front + said + between + told + back)
  {
    ContainsItself(Lower(said));
    ContainsItself(Lower(told));
    Said(front, said, between + told + back, "no branches");
    Said(front + said + between, told, back, "initialize");
    assert front + said + (between + told + back) == front + said + between + told + back;
  }

  /** Nothing else is taken for these failures.  An empty remote lacks branches, and says so of a git remote or asks
      to initialize it, or lacks Dolt data.  A schema refusal is no empty remote, and carries the number of the issue
      or speaks of the schema, declines, and names a remote-backed database.  (A message that says "cannot auto-apply"
      also says "not auto-apply".) */
  lemma OnlyKnownFailures(message: string, text: string)
    requires text == Lower(message)
    ensures IsEmptyRemoteFailure(message)
       <==> || Contains(text, "contains no dolt data")
            || (Contains(text, "no branches") && (Contains(text, "git remote has no branches") || Contains(text, "initialize")))
    ensures IsSchemaSkewRefusal(message)
       <==> && !IsEmptyRemoteFailure(message)
            && (|| Contains(text, "#4259")
                || (&& (Contains(text, "migration") || Contains(text, "migrate") || Contains(text, "schema"))
                    && (Contains(text, "remote-backed") || Contains(text, "remote backed"))
                    && (Contains(text, "will not") || Contains(text, "won't") || Contains(text, "wont") || Contains(text, "refus")
                        || Contains(text, "not auto-apply") || Contains(text, "can't auto-apply"))))
  {
    if Contains(text, "git remote has no branches") { EndsIn(text, "git remote has no branches", "no branches", 15); }
    if Contains(text, "cannot auto-apply") { EndsIn(text, "cannot auto-apply", "not auto-apply", 3); }
  }

  lemma EndsIn(text: string, whole: string, tail: string, at: nat)
    requires at + |tail| == |whole| && whole[at..] == tail && Contains(text, whole)
    ensures Contains(text, tail)
  {
    var i :| 0 <= i <= |text| && OccursAt(text, whole, i);
    assert text[i + at..i + at + |tail|] == text[i..i + |whole|][at..];
    assert OccursAt(text, tail, i + at);
  }

  lemma RefusalWords(message: string, what: string, no: string, where: string)
    requires what == "migration" || what == "migrate" || what == "schema"
    requires no == "will not" || no == "won't" || no == "wont" || no == "refus"
          || no == "not auto-apply" || no == "cannot auto-apply" || no == "can't auto-apply"
    requires where == "remote-backed" || where == "remote backed"
    requires Contains(Lower(message), what) && Contains(Lower(message), no) && Contains(Lower(message), where)
    ensures IsSchemaSkewRefusal(message) <==> !IsEmptyRemoteFailure(message)
  {
  }

  /** A refusal is recognised by its wording too, where it does not carry the number of the issue: it speaks of the
      schema, declines, and names a remote-backed database. */
  lemma SpreadRefusal(front: string, what: string, mid: string, no: string, more: string, where: string, back: string)
    requires Lower(what) == "migration" || Lower(what) == "migrate" || Lower(what) == "schema"
    requires Lower(no) == "will not" || Lower(no) == "won't" || Lower(no) == "wont" || Lower(no) == "refus"
          || Lower(no) == "not auto-apply" || Lower(no) == "cannot auto-apply" || Lower(no) == "can't auto-apply"
    requires Lower(where) == "remote-backed" || Lower(where) == "remote backed"
    ensures var message := front + what + mid + no + more + where + back;
            IsSchemaSkewRefusal(message) <==> !IsEmptyRemoteFailure(message)
  {
    var message := front + what + mid + no + more + where + back;
    ContainsItself(Lower(what));
    ContainsItself(Lower(no));
    ContainsItself(Lower(where));
    Said(front, what, mid + no + more + where + back, Lower(what));
    Said(front + what + mid, no, more + where + back, Lower(no));
    Said(front + what + mid + no + more, where, back, Lower(where));
    assert front + what + (mid + no + more + where + back) == message;
    assert front + what + mid + no + (more + where + back) == message;
    RefusalWords(message, Lower(what), Lower(no), Lower(where));
  }
}
