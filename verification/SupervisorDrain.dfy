/** The drain: list the pending inbox, then dispatch the listed ids one by one while workers go on and mail
    arrives.  The watch reader has ended by then, so nothing else dispatches. */
module SupervisorDrain {
  import opened Basics
  import opened Supervisor
  import opened SupervisorRounds

  /** Listed lines with a first word. */
  function Named(listed: seq<Id>): seq<Id> {
    if listed == [] then [] else (if listed[0] != "" then [listed[0]] else []) + Named(listed[1..])
  }

  lemma {:induction false} NamedAppend(listed: seq<Id>, w: Id)
    ensures Named(listed + [w]) == Named(listed) + (if w != "" then [w] else [])
  {
    if listed == [] {
      assert listed + [w] == [w];
    } else {
      assert (listed + [w])[0] == listed[0] && (listed + [w])[1..] == listed[1..] + [w];
      NamedAppend(listed[1..], w);
    }
  }

  lemma RunGrows(s: State, run: seq<Event>, more: seq<Event>)
    requires Exec(s, run).Some?
    ensures Exec(s, run + more) == Exec(Exec(s, run).value, more)
    ensures Dispatched(run + more) == Dispatched(run) + Dispatched(more)
  {
    ExecAppend(s, run, more);
    DispatchedAppend(run, more);
  }

  class Watcher {
    var state: State

    constructor (state: State)
      ensures this.state == state
    {
      this.state := state;
    }

    /** Workers move and mail arrives, in any order and number. */
    method Elapse() returns (ghost run: seq<Event>)
      modifies this
      ensures Exec(old(state), run) == Some(state) && Dispatched(run) == []
    {
      assert Exec(state, []).Some? && Dispatched([]) == [];
      var es: seq<Event> :| Exec(state, es).Some? && Dispatched(es) == [];
      run := es;
      state := Exec(state, es).value;
    }

    /** `dispatch` */
    method DispatchOne(wid: Id) returns (spawned: bool)
      modifies this
      ensures state == DispatchStep(old(state), wid)
      ensures spawned <==> wid != "" && KeyOf(wid) !in old(state).locks
    {
      spawned := false;
      if wid == "" {
        return;
      }
      var key := KeyOf(wid);
      if key !in state.locks {
        state := state.(locks := state.locks + {key});
        state := state.(workers := state.workers + [Worker(wid, Claimed)]);
        spawned := true;
      }
    }

    /** `drain`; without a listing (the command failed) nothing happens. */
    method Drain(listing: Option<seq<Id>>) returns (ghost run: seq<Event>)
      modifies this
      ensures Exec(old(state), run) == Some(state)
      ensures Dispatched(run) == if listing.Some? then Named(listing.value) else []
      ensures listing.None? ==> state == old(state)
    {
      run := [];
      if listing.None? {
        return;
      }
      var listed := listing.value;
      for i := 0 to |listed|
        invariant Exec(old(state), run) == Some(state)
        invariant Dispatched(run) == Named(listed[..i])
      {
        assert listed[..i + 1] == listed[..i] + [listed[i]];
        NamedAppend(listed[..i], listed[i]);
        ghost var others := Elapse();
        RunGrows(old(state), run, others);
        run := run + others;
        if listed[i] != "" {
          ghost var before := state;
          var _ := DispatchOne(listed[i]);
          ExecHead(before, Dispatch(listed[i]), []);
          RunGrows(old(state), run, [Dispatch(listed[i])] + []);
          run := run + ([Dispatch(listed[i])] + []);
        }
      }
      assert listed[..|listed|] == listed;
    }

    /** A drain, and the time after it.  When all workers are done then, and everything has cooperated, this was
        a round, unless the empty id was pending. */
    method DrainAndFinish(listed: seq<Id>) returns (ghost run: seq<Event>)
      requires Inv(state) && Quiescent(state) && Lists(listed, state)
      modifies this
      ensures Exec(old(state), run) == Some(state) && Dispatched(run) == Named(listed)
      ensures Quiescent(state) && Cooperative(run) ==> (Round(old(state), run, state) <==> "" !in old(state).pending)
    {
      run := Drain(Some(listed));
      ghost var after := Elapse();
      RunGrows(old(state), run, after);
      run := run + after;
      assert Dispatched(run) == Named(listed) + [];
      if Quiescent(state) && Cooperative(run) { DrainIsRound(old(state), run, state, listed); }
    }
  }

  /** The listing of the inbox, in any order. */
  ghost predicate Lists(listed: seq<Id>, s: State) {
    forall w :: w in listed <==> w in s.pending
  }

  lemma {:induction false} NamedHolds(listed: seq<Id>, w: Id)
    ensures w in Named(listed) <==> w in listed && w != ""
  {
    if listed != [] { NamedHolds(listed[1..], w); }
  }

  /** A run that dispatches the named listed ids, from all workers done to all workers done, is a round if and
      only if the inbox holds no empty id. */
  lemma DrainIsRound(s: State, es: seq<Event>, t: State, listed: seq<Id>)
    requires Inv(s) && Quiescent(s) && Lists(listed, s)
    requires Exec(s, es) == Some(t) && Quiescent(t) && Cooperative(es) && Dispatched(es) == Named(listed)
    ensures Round(s, es, t) <==> "" !in s.pending
  {
    var ids := Named(listed);
    forall w ensures w in ids <==> w in s.pending && w != "" { NamedHolds(listed, w); }
    var dispatched := set w | w in ids;
    if "" in s.pending {
      assert "" !in dispatched;
    } else {
      assert dispatched == s.pending;
    }
  }

  /** Every listing of the inbox has a drain after which all workers finish. */
  lemma DrainCanFinish(s: State, listed: seq<Id>)
    requires Inv(s) && Quiescent(s) && Lists(listed, s) && "" !in s.pending
    ensures exists es, t :: Round(s, es, t) && Dispatched(es) == Named(listed)
  {
    var es, t := ServeListed(s, Named(listed));
    DrainIsRound(s, es, t, listed);
    assert Round(s, es, t) && Dispatched(es) == Named(listed);
  }

  // ----- what a drain starts

  /** One step keeps the workers it finds; only a dispatch adds one, with its id. */
  lemma StepWorkers(s: State, e: Event)
    requires Next(s, e).Some?
    ensures var ws := Next(s, e).value.workers;
            && (forall i | 0 <= i < |s.workers| :: i < |ws| && ws[i].wid == s.workers[i].wid)
            && (|ws| == |s.workers| || (e.Dispatch? && |ws| == |s.workers| + 1 && ws[|s.workers|].wid == e.wid))
  {
  }

  /** A run only adds workers; the ones it finds keep their ids. */
  lemma {:induction false} WorkersStay(s: State, es: seq<Event>, i: nat)
    requires Exec(s, es).Some? && i < |s.workers|
    ensures i < |Exec(s, es).value.workers| && Exec(s, es).value.workers[i].wid == s.workers[i].wid
    decreases |es|
  {
    if es != [] {
      StepWorkers(s, es[0]);
      WorkersStay(Next(s, es[0]).value, es[1..], i);
    }
  }

  ghost predicate Started(s: State, t: State, w: Id) {
    exists i :: |s.workers| <= i < |t.workers| && t.workers[i].wid == w
  }

  /** Only dispatched ids are started ... */
  lemma {:induction false} StartedWasDispatched(s: State, es: seq<Event>, i: nat)
    requires Exec(s, es).Some? && |s.workers| <= i < |Exec(s, es).value.workers|
    ensures Exec(s, es).value.workers[i].wid in Dispatched(es)
    decreases |es|
  {
    if es != [] {
      var u := Next(s, es[0]).value;
      StepWorkers(s, es[0]);
      if i < |u.workers| {
        WorkersStay(u, es[1..], i);
      } else {
        StartedWasDispatched(u, es[1..], i);
      }
    }
  }

  /** The key was locked when this run looked at it to dispatch `w`. */
  ghost predicate FoundLocked(s: State, es: seq<Event>, w: Id) {
    exists n :: 0 <= n < |es| && es[n] == Dispatch(w) && LockedAfter(s, es[..n], KeyOf(w))
  }

  predicate LockedAfter(s: State, es: seq<Event>, k: Key) {
    Exec(s, es).Some? && k in Exec(s, es).value.locks
  }

  lemma FoundLockedLater(s: State, es: seq<Event>, w: Id)
    requires es != [] && Next(s, es[0]).Some? && FoundLocked(Next(s, es[0]).value, es[1..], w)
    ensures FoundLocked(s, es, w)
  {
    var u, rest := Next(s, es[0]).value, es[1..];
    var n :| 0 <= n < |rest| && rest[n] == Dispatch(w) && LockedAfter(u, rest[..n], KeyOf(w));
    assert es[..n + 1][0] == es[0] && es[..n + 1][1..] == rest[..n];
    assert es[n + 1] == Dispatch(w) && LockedAfter(s, es[..n + 1], KeyOf(w));
  }

  /** ... and every dispatched id was started, or its key was found locked. */
  lemma {:induction false} DispatchedIsStartedOrLocked(s: State, es: seq<Event>, w: Id)
    requires Exec(s, es).Some? && w in Dispatched(es) && w != ""
    ensures Started(s, Exec(s, es).value, w) || FoundLocked(s, es, w)
    decreases |es|
  {
    var u, t := Next(s, es[0]).value, Exec(s, es).value;
    StepWorkers(s, es[0]);
    if es[0] == Dispatch(w) {
      if KeyOf(w) in s.locks {
        assert es[..0] == [];
        assert LockedAfter(s, es[..0], KeyOf(w));
      } else {
        WorkersStay(u, es[1..], |s.workers|);
        assert t.workers[|s.workers|].wid == w;
      }
    } else {
      DispatchedIsStartedOrLocked(u, es[1..], w);
      if Started(u, t, w) {
        var i :| |u.workers| <= i < |t.workers| && t.workers[i].wid == w;
        assert |s.workers| <= i;
      } else {
        FoundLockedLater(s, es, w);
      }
    }
  }
}
