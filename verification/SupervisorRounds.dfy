/** Draining in rounds: list the pending inbox, dispatch every listed id, let all workers finish.
    Workers may move at any time between the dispatches. */
module SupervisorRounds {
  import opened Basics
  import opened Supervisor
  import opened SupervisorCounter

  ghost predicate Quiescent(s: State) {
    forall i | 0 <= i < |s.workers| :: s.workers[i].stage == Done
  }

  /** The ids dispatched by a schedule, in order. */
  function Dispatched(es: seq<Event>): seq<Id> {
    if es == [] then []
    else (if es[0].Dispatch? then [es[0].wid] else []) + Dispatched(es[1..])
  }

  /** No mail arrives, every child answers its id, every lock removal works. */
  ghost predicate Allowed(e: Event) {
    !e.Arrive? && (e.Exit? ==> e.answered) && (e.Release? ==> e.ok)
  }

  ghost predicate Cooperative(es: seq<Event>) {
    forall e | e in es :: Allowed(e)
  }

  /** One round: from one quiescent state to the next, dispatching exactly the listed inbox. */
  ghost predicate Round(s: State, es: seq<Event>, t: State) {
    && Inv(s) && Quiescent(s)
    && Exec(s, es) == Some(t) && Quiescent(t)
    && Cooperative(es)
    && (set w | w in Dispatched(es)) == s.pending
  }

  // ----- how far a worker started in this round has come

  predicate Returned(w: Worker) {
    !w.stage.Claimed? && !w.stage.Materializing? && !w.stage.Running?
  }

  /** Workers from index `n` on were started in this round from the ids in `listed`, and the ones whose
      child has returned have answered. */
  ghost predicate Answering(s: State, n: nat, listed: set<Id>) {
    && n <= |s.workers|
    && (forall i | 0 <= i < n :: s.workers[i].stage == Done)
    && (forall i | n <= i < |s.workers| ::
          s.workers[i].wid in listed && (Returned(s.workers[i]) ==> s.workers[i].wid !in s.pending))
  }

  ghost predicate StartedFor(s: State, n: nat, k: Key) {
    exists i :: n <= i < |s.workers| && KeyOf(s.workers[i].wid) == k
  }

  /** Every id dispatched so far shares its key with a worker of this round. */
  ghost predicate Covered(s: State, n: nat, dispatched: seq<Id>) {
    forall w | w in dispatched && w != "" && KeyOf(w) !in s.stuck :: StartedFor(s, n, KeyOf(w))
  }

  lemma StartedForGrows(s: State, t: State, n: nat, k: Key)
    requires StartedFor(s, n, k) && |s.workers| <= |t.workers|
    requires forall i | 0 <= i < |s.workers| :: t.workers[i].wid == s.workers[i].wid
    ensures StartedFor(t, n, k)
  {
    var i :| n <= i < |s.workers| && KeyOf(s.workers[i].wid) == k;
    assert KeyOf(t.workers[i].wid) == k;
  }

  lemma CoveredGrows(s: State, t: State, n: nat, dispatched: seq<Id>)
    requires Covered(s, n, dispatched) && |s.workers| <= |t.workers| && s.stuck <= t.stuck
    requires forall i | 0 <= i < |s.workers| :: t.workers[i].wid == s.workers[i].wid
    ensures Covered(t, n, dispatched)
  {
    forall w | w in dispatched && w != "" && KeyOf(w) !in t.stuck ensures StartedFor(t, n, KeyOf(w)) {
      StartedForGrows(s, t, n, KeyOf(w));
    }
  }

  /** After a dispatch its key is free of workers only when it is stuck. */
  lemma DispatchCovers(s: State, n: nat, listed: set<Id>, wid: Id)
    requires Inv(s) && Answering(s, n, listed) && wid != "" && KeyOf(wid) !in s.stuck
    ensures StartedFor(DispatchStep(s, wid), n, KeyOf(wid))
  {
    var t := DispatchStep(s, wid);
    if KeyOf(wid) in s.locks {
      var i :| Owns(s, i, KeyOf(wid));
      assert n <= i;
    } else {
      assert KeyOf(t.workers[|s.workers|].wid) == KeyOf(wid);
    }
  }

  lemma DispatchProgress(s: State, n: nat, listed: set<Id>, dispatched: seq<Id>, wid: Id)
    requires Inv(s) && Answering(s, n, listed) && Covered(s, n, dispatched) && wid in listed
    ensures Answering(DispatchStep(s, wid), n, listed)
    ensures Covered(DispatchStep(s, wid), n, dispatched + [wid])
  {
    var t := DispatchStep(s, wid);
    CoveredGrows(s, t, n, dispatched);
    if wid != "" && KeyOf(wid) !in s.stuck { DispatchCovers(s, n, listed, wid); }
  }

  lemma OtherAnswering(s: State, n: nat, listed: set<Id>, e: Event)
    requires Answering(s, n, listed) && Next(s, e).Some? && Allowed(e) && !e.Dispatch?
    ensures Answering(Next(s, e).value, n, listed)
  {
    var t := Next(s, e).value;
    assert t.pending <= s.pending;
    assert forall j | 0 <= j < |t.workers| && j != e.i :: t.workers[j] == s.workers[j];
  }

  lemma OtherCovered(s: State, n: nat, dispatched: seq<Id>, e: Event)
    requires Covered(s, n, dispatched) && Next(s, e).Some? && Allowed(e) && !e.Dispatch?
    ensures Covered(Next(s, e).value, n, dispatched)
  {
    CoveredGrows(s, Next(s, e).value, n, dispatched);
  }

  lemma StepProgress(s: State, n: nat, listed: set<Id>, dispatched: seq<Id>, e: Event)
    requires Inv(s) && Answering(s, n, listed) && Covered(s, n, dispatched)
    requires Next(s, e).Some? && Allowed(e) && (e.Dispatch? ==> e.wid in listed)
    ensures Answering(Next(s, e).value, n, listed)
    ensures Covered(Next(s, e).value, n, dispatched + Dispatched([e]))
  {
    assert [e][1..] == [];
    if e.Dispatch? {
      DispatchProgress(s, n, listed, dispatched, e.wid);
    } else {
      OtherAnswering(s, n, listed, e);
      OtherCovered(s, n, dispatched, e);
      assert dispatched + Dispatched([e]) == dispatched;
    }
  }

  lemma DispatchedHead(es: seq<Event>, before: seq<Id>)
    requires es != []
    ensures before + Dispatched(es) == before + Dispatched([es[0]]) + Dispatched(es[1..])
  {
    var head := if es[0].Dispatch? then [es[0].wid] else [];
    assert Dispatched([es[0]]) == head by { assert [es[0]][1..] == []; }
    Associate(before, head, Dispatched(es[1..]));
  }

  lemma Associate(a: seq<Id>, b: seq<Id>, c: seq<Id>)
    ensures a + (b + c) == a + b + c
  {
  }

  lemma {:induction false} ExecProgress(s: State, es: seq<Event>, n: nat, listed: set<Id>, dispatched: seq<Id>)
    requires Inv(s) && Answering(s, n, listed) && Covered(s, n, dispatched)
    requires Exec(s, es).Some? && Cooperative(es)
    requires forall w | w in Dispatched(es) :: w in listed
    ensures Answering(Exec(s, es).value, n, listed)
    ensures Covered(Exec(s, es).value, n, dispatched + Dispatched(es))
    decreases |es|
  {
    if es == [] {
      assert dispatched + Dispatched(es) == dispatched;
    } else {
      var e, rest := es[0], es[1..];
      assert e in es;
      assert e.Dispatch? ==> e.wid in Dispatched(es);
      NextKeepsInv(s, e);
      StepProgress(s, n, listed, dispatched, e);
      DispatchedHead(es, dispatched);
      assert forall w | w in Dispatched(rest) :: w in Dispatched(es);
      ExecProgress(Next(s, e).value, rest, n, listed, dispatched + Dispatched([e]));
    }
  }

  lemma {:induction false} PendingShrinks(s: State, es: seq<Event>)
    requires Exec(s, es).Some? && Cooperative(es)
    ensures Exec(s, es).value.pending <= s.pending
    ensures Exec(s, es).value.stuck == s.stuck
    decreases |es|
  {
    if es != [] {
      assert es[0] in es;
      PendingShrinks(Next(s, es[0]).value, es[1..]);
    }
  }

  // ----- one round

  ghost function Group(s: State, k: Key): set<Id> {
    set w | w in s.pending && KeyOf(w) == k
  }

  /** Where a round leads: its workers were started from the listed inbox and have answered, and every
      listed id has a worker with its key. */
  lemma RoundEffect(s: State, es: seq<Event>, t: State)
    requires Round(s, es, t)
    ensures Answering(t, |s.workers|, s.pending) && Covered(t, |s.workers|, Dispatched(es))
    ensures t.pending <= s.pending && t.stuck == s.stuck
  {
    ExecProgress(s, es, |s.workers|, s.pending, []);
    PendingShrinks(s, es);
    assert [] + Dispatched(es) == Dispatched(es);
  }

  /** One round starts only listed ids, and from every group of pending ids sharing a free key at
      least one id is answered and gone. */
  lemma RoundShrinksEveryGroup(s: State, es: seq<Event>, t: State, k: Key)
    requires Round(s, es, t) && k !in s.stuck && "" !in s.pending
    ensures forall i | |s.workers| <= i < |t.workers| :: t.workers[i].wid in s.pending
    ensures Group(t, k) <= Group(s, k)
    ensures Group(s, k) != {} ==> Group(t, k) < Group(s, k)
  {
    RoundEffect(s, es, t);
    if Group(s, k) != {} {
      var w :| w in Group(s, k);
      assert w in Dispatched(es);
      assert StartedFor(t, |s.workers|, k);
      var i :| |s.workers| <= i < |t.workers| && KeyOf(t.workers[i].wid) == k;
      assert t.workers[i].wid in Group(s, k) && t.workers[i].wid !in Group(t, k);
    }
  }

  // ----- many rounds

  /** `rounds[r]` leads from `states[r]` to `states[r + 1]`. */
  ghost predicate Rounds(states: seq<State>, rounds: seq<seq<Event>>) {
    && |states| == |rounds| + 1
    && (forall r | 0 <= r < |rounds| :: Round(states[r], rounds[r], states[r + 1]))
  }

  lemma {:induction false} GroupAfterRounds(states: seq<State>, rounds: seq<seq<Event>>, k: Key, n: nat)
    requires Rounds(states, rounds) && k !in states[0].stuck && "" !in states[0].pending
    requires |Group(states[0], k)| <= n
    requires n <= |rounds|
    ensures Group(states[|rounds|], k) == {}
    decreases |rounds|
  {
    if |rounds| == 0 {
    } else {
      var s, t := states[0], states[1];
      assert Round(s, rounds[0], t);
      RoundShrinksEveryGroup(s, rounds[0], t, k);
      PendingShrinks(s, rounds[0]);
      if Group(s, k) != {} { SmallerSet(Group(t, k), Group(s, k)); }
      assert Rounds(states[1..], rounds[1..]) by {
        forall r | 0 <= r < |rounds[1..]| ensures Round(states[1..][r], rounds[1..][r], states[1..][r + 1]) {
          assert Round(states[r + 1], rounds[r + 1], states[r + 2]);
        }
      }
      GroupAfterRounds(states[1..], rounds[1..], k, if n == 0 then 0 else n - 1);
    }
  }

  lemma SmallerSet(a: set<Id>, b: set<Id>)
    requires a < b
    ensures |a| < |b|
  {
    var x :| x in b && x !in a;
    assert |b - {x}| == |b| - 1;
    SubsetSize(a, b - {x});
  }

  lemma {:induction false} SubsetSize(a: set<Id>, b: set<Id>)
    requires a <= b
    ensures |a| <= |b|
    decreases |a|
  {
    if a != {} {
      var x :| x in a;
      SubsetSize(a - {x}, b - {x});
    }
  }

  /** Rounds of "drain, then let all workers finish" empty the inbox in at most as many rounds as
      the largest group of pending ids sharing one key. */
  lemma RoundsEmptyTheInbox(states: seq<State>, rounds: seq<seq<Event>>, largest: nat)
    requires Rounds(states, rounds) && "" !in states[0].pending
    requires forall w | w in states[0].pending :: KeyOf(w) !in states[0].stuck && |Group(states[0], KeyOf(w))| <= largest
    requires largest <= |rounds|
    ensures states[|rounds|].pending == {}
  {
    PendingOnlyShrinks(states, rounds);
    forall w | w in states[|rounds|].pending ensures w !in Group(states[|rounds|], KeyOf(w)) {
      GroupAfterRounds(states, rounds, KeyOf(w), largest);
    }
    assert forall w | w in states[|rounds|].pending :: w in Group(states[|rounds|], KeyOf(w));
  }

  lemma {:induction false} PendingOnlyShrinks(states: seq<State>, rounds: seq<seq<Event>>)
    requires Rounds(states, rounds)
    ensures states[|rounds|].pending <= states[0].pending
    decreases |rounds|
  {
    if |rounds| > 0 {
      assert Round(states[0], rounds[0], states[1]);
      PendingShrinks(states[0], rounds[0]);
      assert Rounds(states[1..], rounds[1..]) by {
        forall r | 0 <= r < |rounds[1..]| ensures Round(states[1..][r], rounds[1..][r], states[1..][r + 1]) {
          assert Round(states[r + 1], rounds[r + 1], states[r + 2]);
        }
      }
      PendingOnlyShrinks(states[1..], rounds[1..]);
    }
  }

  // ----- rounds exist

  lemma ExecHead(s: State, e: Event, es: seq<Event>)
    requires Next(s, e).Some?
    ensures Exec(s, [e] + es) == Exec(Next(s, e).value, es)
    ensures Dispatched([e] + es) == (if e.Dispatch? then [e.wid] else []) + Dispatched(es)
  {
    assert ([e] + es)[0] == e && ([e] + es)[1..] == es;
  }

  /** A worker that is not done can always take its next step. */
  lemma Advance(s: State, i: nat) returns (e: Event)
    requires i < |s.workers| && s.workers[i].stage != Done
    ensures Next(s, e).Some? && !e.Dispatch? && !e.Arrive? && (e.Exit? ==> e.answered) && (e.Release? ==> e.ok)
    ensures var ws := Next(s, e).value.workers;
            |ws| == |s.workers| && Rank(s.workers[i].stage) < Rank(ws[i].stage)
            && (forall j | 0 <= j < |ws| && j != i :: ws[j] == s.workers[j])
  {
    match s.workers[i].stage
    case Claimed => e := Fork(i);
    case Materializing => e := WriteConfig(i, true, None);
    case Running(_) => e := Exit(i, true);
    case Exited => e := ReadCount(i);
    case Counting(_) => e := OpenCount(i, true);
    case Truncated(_) => e := WriteCount(i, true);
    case Cleaning => e := RemoveConfig(i, true);
    case Releasing => e := Release(i, true);
  }

  lemma {:induction false} Finish(s: State, i: nat) returns (es: seq<Event>, t: State)
    requires i < |s.workers|
    requires forall j | 0 <= j < |s.workers| && j != i :: s.workers[j].stage == Done
    ensures Exec(s, es) == Some(t) && Quiescent(t) && Cooperative(es) && Dispatched(es) == []
    decreases 8 - Rank(s.workers[i].stage)
  {
    if s.workers[i].stage == Done {
      es, t := [], s;
    } else {
      var e := Advance(s, i);
      var rest;
      rest, t := Finish(Next(s, e).value, i);
      ExecHead(s, e, rest);
      es := [e] + rest;
    }
  }

  lemma {:induction false} DispatchedAppend(a: seq<Event>, b: seq<Event>)
    ensures Dispatched(a + b) == Dispatched(a) + Dispatched(b)
    decreases |a|
  {
    if a == [] {
      assert a + b == b;
    } else {
      assert (a + b)[0] == a[0] && (a + b)[1..] == a[1..] + b;
      DispatchedAppend(a[1..], b);
    }
  }

  lemma ServeOne(s: State, wid: Id) returns (es: seq<Event>, t: State)
    requires Quiescent(s)
    ensures Exec(s, es) == Some(t) && Quiescent(t) && Cooperative(es) && Dispatched(es) == [wid]
  {
    var u := DispatchStep(s, wid);
    var rest;
    if u == s {
      rest, t := [], s;
    } else {
      rest, t := Finish(u, |s.workers|);
    }
    ExecHead(s, Dispatch(wid), rest);
    es := [Dispatch(wid)] + rest;
  }

  /** Dispatch the ids one after the other, each once the worker before has finished. */
  lemma {:induction false} ServeListed(s: State, ids: seq<Id>) returns (es: seq<Event>, t: State)
    requires Quiescent(s)
    ensures Exec(s, es) == Some(t) && Quiescent(t) && Cooperative(es) && Dispatched(es) == ids
    decreases |ids|
  {
    if ids == [] {
      es, t := [], s;
    } else {
      var first, u := ServeOne(s, ids[0]);
      var rest;
      rest, t := ServeListed(u, ids[1..]);
      es := first + rest;
      ExecAppend(s, first, rest);
      DispatchedAppend(first, rest);
      assert ids == [ids[0]] + ids[1..];
    }
  }

  lemma {:induction false} Listing(ids: set<Id>) returns (listed: seq<Id>)
    ensures forall w :: w in listed <==> w in ids
    decreases |ids|
  {
    if ids == {} {
      listed := [];
    } else {
      var w :| w in ids;
      var rest := Listing(ids - {w});
      listed := [w] + rest;
    }
  }

  /** From every quiescent state a round can be completed, so the bound above is not empty. */
  lemma RoundExists(s: State)
    requires Inv(s) && Quiescent(s)
    ensures exists es, t :: Round(s, es, t)
  {
    var listed := Listing(s.pending);
    var es, t := ServeListed(s, listed);
    assert Round(s, es, t);
  }

  // ----- stuck keys

  /** A pending id whose key is stuck (a stale lock, or the ids `.` and `..`) is never started and
      never leaves the inbox, whatever else happens. */
  lemma {:induction false} StuckIdIsNeverServed(s: State, es: seq<Event>, w: Id)
    requires Inv(s) && Exec(s, es).Some? && w in s.pending && KeyOf(w) in s.stuck
    ensures w in Exec(s, es).value.pending && KeyOf(w) in Exec(s, es).value.stuck
    decreases |es|
  {
    if es != [] {
      var t := Next(s, es[0]).value;
      NextKeepsInv(s, es[0]);
      if es[0].Exit? {
        assert Owns(s, es[0].i, KeyOf(s.workers[es[0].i].wid));
      }
      StuckIdIsNeverServed(t, es[1..], w);
    }
  }
}
