/** What a run leaves behind: when an id leaves the inbox, and when a child config goes away. */
module SupervisorInbox {
  import opened Basics
  import opened Supervisor

  // ----- the inbox

  /** The event is the exit of a child that was started for `w` and has answered. */
  predicate Answers(s: State, e: Event, w: Id) {
    e.Exit? && e.answered && e.i < |s.workers| && s.workers[e.i].wid == w
  }

  /** Some child that was started for `w` answers during the run. */
  predicate Answered(s: State, es: seq<Event>, w: Id)
    requires Exec(s, es).Some?
    decreases |es|
  {
    es != [] && (Answers(s, es[0], w) || Answered(Next(s, es[0]).value, es[1..], w))
  }

  lemma StepInbox(s: State, e: Event, w: Id)
    requires Next(s, e).Some?
    ensures var t := Next(s, e).value; w in t.pending <==> e == Arrive(w) || (w in s.pending && !Answers(s, e, w))
  {
  }

  /** No work id is lost: it stays in the inbox until a child started for this very id has answered. */
  lemma {:induction false} StaysUntilAnswered(s: State, es: seq<Event>, w: Id)
    requires Exec(s, es).Some? && w in s.pending && !Answered(s, es, w)
    ensures w in Exec(s, es).value.pending
    decreases |es|
  {
    if es != [] {
      StepInbox(s, es[0], w);
      StaysUntilAnswered(Next(s, es[0]).value, es[1..], w);
    }
  }

  /** Unless it arrives again, it is pending in the end if and only if it was, and no such child has answered. */
  lemma {:induction false} PendingIffUnanswered(s: State, es: seq<Event>, w: Id)
    requires Exec(s, es).Some? && Arrive(w) !in es
    ensures w in Exec(s, es).value.pending <==> w in s.pending && !Answered(s, es, w)
    decreases |es|
  {
    if es != [] {
      var t := Next(s, es[0]).value;
      assert es[0] in es;
      StepInbox(s, es[0], w);
      assert forall e | e in es[1..] :: e in es;
      PendingIffUnanswered(t, es[1..], w);
    }
  }

  // ----- the child configs

  /** What the config of a key is, if there is one. */
  function ConfigOf(s: State, k: Key): Option<ConfigFile> {
    if k in s.configs then Some(s.configs[k]) else None
  }

  /** A config write puts the identity there, or what a failing write leaves; a working removal takes it away; nothing
      else touches it. */
  lemma StepConfig(s: State, e: Event, k: Key)
    requires Next(s, e).Some?
    ensures ConfigOf(Next(s, e).value, k) ==
            if e.WriteConfig? && KeyOf(s.workers[e.i].wid) == k then
              (if e.ok then Some(Identity(s.bc, s.workers[e.i].wid)) else e.left)
            else if e.RemoveConfig? && KeyOf(s.workers[e.i].wid) == k && e.ok then None
            else ConfigOf(s, k)
  {
  }

  /** Between its config write and the removal. */
  predicate HoldsConfig(w: Worker) {
    w.stage.Running? || w.stage.Exited? || w.stage.Counting? || w.stage.Truncated? || w.stage.Cleaning?
  }

  /** Every config was there before, or belongs to a worker that has yet to remove it. */
  ghost predicate Tidy(s: State, left: set<Key>) {
    forall k | k in s.configs :: k in left || exists i :: Owns(s, i, k) && HoldsConfig(s.workers[i])
  }

  lemma {:induction false} TidyRun(s: State, es: seq<Event>, left: set<Key>)
    requires Exec(s, es).Some? && Tidy(s, left)
    requires forall e | e in es && e.RemoveConfig? :: e.ok
    ensures Tidy(Exec(s, es).value, left)
    decreases |es|
  {
    if es != [] {
      assert es[0] in es;
      TidyStep(s, es[0], left);
      assert forall e | e in es[1..] :: e in es;
      TidyRun(Next(s, es[0]).value, es[1..], left);
    }
  }

  /** A worker that holds a config which a step does not remove still holds it. */
  lemma KeepsHolding(s: State, e: Event, i: nat, k: Key)
    requires Next(s, e).Some? && (e.RemoveConfig? ==> e.ok)
    requires Owns(s, i, k) && HoldsConfig(s.workers[i]) && k in Next(s, e).value.configs
    ensures Owns(Next(s, e).value, i, k) && HoldsConfig(Next(s, e).value.workers[i])
  {
  }

  lemma TidyStep(s: State, e: Event, left: set<Key>)
    requires Tidy(s, left) && Next(s, e).Some? && (e.RemoveConfig? ==> e.ok)
    ensures Tidy(Next(s, e).value, left)
  {
    var t := Next(s, e).value;
    forall k | k in t.configs && k !in left ensures exists i :: Owns(t, i, k) && HoldsConfig(t.workers[i]) {
      StepConfig(s, e, k);
      if k in s.configs {
        var i :| Owns(s, i, k) && HoldsConfig(s.workers[i]);
        KeepsHolding(s, e, i, k);
      } else {
        assert e.WriteConfig? && Owns(t, e.i, k) && HoldsConfig(t.workers[e.i]);
      }
    }
  }

  /** When every removal works and all workers are done, the run has left no config behind. */
  lemma ConfigsAreRemoved(s: State, es: seq<Event>)
    requires Exec(s, es).Some?
    requires forall e | e in es && e.RemoveConfig? :: e.ok
    requires forall i | 0 <= i < |Exec(s, es).value.workers| :: Exec(s, es).value.workers[i].stage == Done
    ensures Exec(s, es).value.configs.Keys <= s.configs.Keys
  {
    TidyRun(s, es, s.configs.Keys);
  }
}
