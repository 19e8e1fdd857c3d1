/** The shell supervisor simulates `DispatchTracker`: a successful `mkdir` is SPAWN, a failed one
    is SKIP, and the end of a worker is `retire`. */
module Simulation {
  import opened Supervisor
  import opened SupervisorKeys
  import T = Tracker

  /** The ids whose worker is between its `mkdir` and the end of its `rm -rf`. */
  ghost function LiveIds(s: State): set<Id> {
    set i | 0 <= i < |s.workers| && s.workers[i].stage != Done :: s.workers[i].wid
  }

  /** What the shell decided at this event, read off its effect: did a new worker appear? */
  function ShellDecisions(s: State, e: Event): seq<T.Decision> {
    match e
    case Dispatch(wid) =>
      if wid == "" then []
      else [T.Decision(wid, if |DispatchStep(s, wid).workers| > |s.workers| then T.SPAWN else T.SKIP)]
    case _ => []
  }

  /** The tracker operations matching one shell event.  With `observing`, an id whose lock exists
      is reported to the cycle as observed in flight. */
  function TrackerOps(s: State, e: Event, observing: bool): seq<T.Op> {
    match e
    case Dispatch(wid) =>
      if wid == "" then []
      else [T.Op.Cycle([wid], if observing && KeyOf(wid) in s.locks then {wid} else {})]
    case Release(i, _) => if i < |s.workers| then [T.Op.Retire(s.workers[i].wid)] else []
    case _ => []
  }

  function TrackerEnd(inFlight: set<Id>, ops: seq<T.Op>): set<Id>
    decreases |ops|
  {
    if ops == [] then inFlight else TrackerEnd(T.After(inFlight, ops[0]), ops[1..])
  }

  function TrackerLog(inFlight: set<Id>, ops: seq<T.Op>): seq<T.Decision>
    decreases |ops|
  {
    if ops == [] then []
    else T.OpDecisions(inFlight, ops[0]) + TrackerLog(T.After(inFlight, ops[0]), ops[1..])
  }

  function ShellRunLog(s: State, es: seq<Event>): seq<T.Decision>
    requires Exec(s, es).Some?
    decreases |es|
  {
    if es == [] then [] else ShellDecisions(s, es[0]) + ShellRunLog(Next(s, es[0]).value, es[1..])
  }

  function TrackerRunOps(s: State, es: seq<Event>, observing: bool): seq<T.Op>
    requires Exec(s, es).Some?
    decreases |es|
  {
    if es == [] then []
    else TrackerOps(s, es[0], observing) + TrackerRunOps(Next(s, es[0]).value, es[1..], observing)
  }

  // ----- one step

  lemma SameStagesSameLive(s: State, t: State)
    requires |s.workers| == |t.workers|
    requires forall i | 0 <= i < |s.workers| ::
               s.workers[i].wid == t.workers[i].wid && (s.workers[i].stage == Done <==> t.workers[i].stage == Done)
    ensures LiveIds(t) == LiveIds(s)
  {
    forall w ensures w in LiveIds(t) <==> w in LiveIds(s) {
      if w in LiveIds(s) {
        var i :| 0 <= i < |s.workers| && s.workers[i].stage != Done && s.workers[i].wid == w;
        assert t.workers[i].wid == w;
      }
      if w in LiveIds(t) {
        var i :| 0 <= i < |t.workers| && t.workers[i].stage != Done && t.workers[i].wid == w;
        assert s.workers[i].wid == w;
      }
    }
  }

  lemma DispatchLive(s: State, wid: Id)
    requires wid != "" && KeyOf(wid) !in s.locks
    ensures LiveIds(DispatchStep(s, wid)) == LiveIds(s) + {wid}
  {
    var t := DispatchStep(s, wid);
    forall w ensures w in LiveIds(t) <==> w in LiveIds(s) + {wid} {
      if w in LiveIds(s) {
        var i :| 0 <= i < |s.workers| && s.workers[i].stage != Done && s.workers[i].wid == w;
        assert t.workers[i] == s.workers[i];
      }
      if w == wid { assert t.workers[|s.workers|].wid == wid; }
      if w in LiveIds(t) {
        var i :| 0 <= i < |t.workers| && t.workers[i].stage != Done && t.workers[i].wid == w;
        assert i < |s.workers| ==> t.workers[i] == s.workers[i];
      }
    }
  }

  lemma ReleaseLive(s: State, i: nat, ok: bool)
    requires Inv(s) && At(s, i, Releasing)
    ensures LiveIds(Next(s, Release(i, ok)).value) == LiveIds(s) - {s.workers[i].wid}
  {
    var t := Next(s, Release(i, ok)).value;
    var mine := s.workers[i].wid;
    forall w ensures w in LiveIds(t) <==> w in LiveIds(s) - {mine} {
      if w in LiveIds(s) && w != mine {
        var j :| 0 <= j < |s.workers| && s.workers[j].stage != Done && s.workers[j].wid == w;
        assert t.workers[j] == s.workers[j];
      }
      if w in LiveIds(t) {
        var j :| 0 <= j < |t.workers| && t.workers[j].stage != Done && t.workers[j].wid == w;
        assert j != i && t.workers[j] == s.workers[j];
        assert Owns(s, i, KeyOf(mine)) && Owns(s, j, KeyOf(w));
      }
    }
  }

  lemma SpawnedOne(d: T.Decision)
    ensures T.Spawned([d]) == if d.action == T.SPAWN then [d.workId] else []
  {
    assert [d][1..] == [];
  }

  lemma CycleOfOne(inFlight: set<Id>, wid: Id, observed: set<Id>)
    ensures var op := T.Op.Cycle([wid], observed);
            && T.OpDecisions(inFlight, op) == [T.Decision(wid, if wid in inFlight + observed then T.SKIP else T.SPAWN)]
            && T.After(inFlight, op) == if wid in inFlight + observed then inFlight else inFlight + {wid}
  {
    var op := T.Op.Cycle([wid], observed);
    assert T.OpDecisions(inFlight, op) == [T.Decision(wid, if wid in inFlight + observed then T.SKIP else T.SPAWN)];
    SpawnedOne(T.OpDecisions(inFlight, op)[0]);
  }

  lemma TrackerRunOfOne(inFlight: set<Id>, op: T.Op)
    ensures TrackerEnd(inFlight, [op]) == T.After(inFlight, op)
    ensures TrackerLog(inFlight, [op]) == T.OpDecisions(inFlight, op)
  {
    assert [op][1..] == [];
    assert TrackerLog(T.After(inFlight, op), []) == [];
  }

  /** The lock of a live id exists, so the shell never spawns what the tracker would skip. */
  lemma LiveIsLocked(s: State, w: Id)
    requires Inv(s) && w in LiveIds(s)
    ensures KeyOf(w) in s.locks
  {
    var i :| 0 <= i < |s.workers| && s.workers[i].stage != Done && s.workers[i].wid == w;
    assert Owns(s, i, KeyOf(w));
  }

  lemma OtherStepKeepsLive(s: State, e: Event)
    requires Next(s, e).Some? && !e.Dispatch? && !e.Release?
    ensures LiveIds(Next(s, e).value) == LiveIds(s)
  {
    SameStagesSameLive(s, Next(s, e).value);
  }

  lemma DispatchSimulates(s: State, wid: Id, observing: bool)
    requires Inv(s) && wid != ""
    requires !observing && KeyOf(wid) in s.locks ==> wid in LiveIds(s)
    ensures LiveIds(DispatchStep(s, wid)) == TrackerEnd(LiveIds(s), TrackerOps(s, Dispatch(wid), observing))
    ensures ShellDecisions(s, Dispatch(wid)) == TrackerLog(LiveIds(s), TrackerOps(s, Dispatch(wid), observing))
  {
    var observed := if observing && KeyOf(wid) in s.locks then {wid} else {};
    CycleOfOne(LiveIds(s), wid, observed);
    TrackerRunOfOne(LiveIds(s), T.Op.Cycle([wid], observed));
    if KeyOf(wid) !in s.locks {
      DispatchLive(s, wid);
      if wid in LiveIds(s) { LiveIsLocked(s, wid); }
    }
  }

  lemma StepSimulates(s: State, e: Event, observing: bool)
    requires Inv(s) && Next(s, e).Some?
    requires !observing && e.Dispatch? ==> (KeyOf(e.wid) in s.locks ==> e.wid in LiveIds(s))
    ensures LiveIds(Next(s, e).value) == TrackerEnd(LiveIds(s), TrackerOps(s, e, observing))
    ensures ShellDecisions(s, e) == TrackerLog(LiveIds(s), TrackerOps(s, e, observing))
  {
    match e
    case Dispatch(wid) =>
      if wid != "" { DispatchSimulates(s, wid, observing); }
    case Release(i, ok) =>
      ReleaseLive(s, i, ok);
      TrackerRunOfOne(LiveIds(s), T.Op.Retire(s.workers[i].wid));
    case _ =>
      OtherStepKeepsLive(s, e);
  }

  // ----- whole runs

  lemma {:induction false} TrackerAppend(inFlight: set<Id>, a: seq<T.Op>, b: seq<T.Op>)
    ensures TrackerEnd(inFlight, a + b) == TrackerEnd(TrackerEnd(inFlight, a), b)
    ensures TrackerLog(inFlight, a + b) == TrackerLog(inFlight, a) + TrackerLog(TrackerEnd(inFlight, a), b)
    decreases |a|
  {
    if a == [] {
      assert a + b == b;
    } else {
      assert (a + b)[0] == a[0] && (a + b)[1..] == a[1..] + b;
      TrackerAppend(T.After(inFlight, a[0]), a[1..], b);
    }
  }

  /** Every run of the shell, with any key collisions, stale locks and failing removals, takes the
      decisions of a tracker that is told, on each cycle, which listed id has its key locked; the
      tracker's in-flight set is always the set of live ids. */
  lemma {:induction false} ShellSimulatesObservingTracker(s: State, es: seq<Event>)
    requires Inv(s) && Exec(s, es).Some?
    ensures ShellRunLog(s, es) == TrackerLog(LiveIds(s), TrackerRunOps(s, es, true))
    ensures LiveIds(Exec(s, es).value) == TrackerEnd(LiveIds(s), TrackerRunOps(s, es, true))
    decreases |es|
  {
    if es != [] {
      var t := Next(s, es[0]).value;
      NextKeepsInv(s, es[0]);
      StepSimulates(s, es[0], true);
      ShellSimulatesObservingTracker(t, es[1..]);
      TrackerAppend(LiveIds(s), TrackerOps(s, es[0], true), TrackerRunOps(t, es[1..], true));
    }
  }

  /** No two ids of this run, dispatched or live, share a key, none has a stuck key, and no lock
      removal fails. */
  ghost predicate NoCollisions(s: State, es: seq<Event>, ids: set<Id>) {
    && LiveIds(s) <= ids
    && (forall e | e in es && e.Dispatch? :: e.wid in ids)
    && (forall v, w | v in ids && w in ids && KeyOf(v) == KeyOf(w) :: v == w)
    && (forall w | w in ids :: KeyOf(w) !in s.stuck)
    && (forall e | e in es && e.Release? :: e.ok)
  }

  /** Without collisions the decisions are those of a plain tracker that observes nothing. */
  lemma {:induction false} ShellSimulatesPlainTracker(s: State, es: seq<Event>, ids: set<Id>)
    requires Inv(s) && Exec(s, es).Some? && NoCollisions(s, es, ids)
    ensures ShellRunLog(s, es) == TrackerLog(LiveIds(s), TrackerRunOps(s, es, false))
    ensures LiveIds(Exec(s, es).value) == TrackerEnd(LiveIds(s), TrackerRunOps(s, es, false))
    decreases |es|
  {
    if es != [] {
      var e := es[0];
      var t := Next(s, e).value;
      NextKeepsInv(s, e);
      if e.Dispatch? && KeyOf(e.wid) in s.locks {
        var i :| Owns(s, i, KeyOf(e.wid));
        assert s.workers[i].wid in LiveIds(s);
      }
      StepSimulates(s, e, false);
      StepKeepsNoCollisions(s, es, ids);
      ShellSimulatesPlainTracker(t, es[1..], ids);
      TrackerAppend(LiveIds(s), TrackerOps(s, e, false), TrackerRunOps(t, es[1..], false));
    }
  }

  /** Ids of allowed characters do not collide, so for them the shell is the plain tracker. */
  lemma PlainIdsDoNotCollide(s: State, es: seq<Event>, ids: set<Id>)
    requires forall w | w in ids :: Plain(w) && w !in s.stuck
    requires LiveIds(s) <= ids && forall e | e in es && e.Dispatch? :: e.wid in ids
    requires forall e | e in es && e.Release? :: e.ok
    ensures NoCollisions(s, es, ids)
  {
    forall w | w in ids ensures KeyOf(w) == w { KeyIsIdIffPlain(w); }
  }

  lemma StepKeepsLiveWithin(s: State, e: Event, ids: set<Id>)
    requires Inv(s) && Next(s, e).Some? && LiveIds(s) <= ids && (e.Dispatch? ==> e.wid in ids)
    ensures LiveIds(Next(s, e).value) <= ids
  {
    match e
    case Dispatch(wid) =>
      if wid != "" && KeyOf(wid) !in s.locks { DispatchLive(s, wid); }
    case Release(i, ok) => ReleaseLive(s, i, ok);
    case _ => OtherStepKeepsLive(s, e);
  }

  lemma StepKeepsNoCollisions(s: State, es: seq<Event>, ids: set<Id>)
    requires Inv(s) && es != [] && Next(s, es[0]).Some? && NoCollisions(s, es, ids)
    ensures NoCollisions(Next(s, es[0]).value, es[1..], ids)
  {
    assert es[0] in es;
    StepKeepsLiveWithin(s, es[0], ids);
  }

  /** Exactly when one dispatch of an id that is not in flight is skipped: its lock is stuck or a
      live worker with a different id holds the shared key. */
  lemma SkippedThoughNotInFlight(s: State, w: Id)
    requires Reachable(s) && w != "" && w !in LiveIds(s)
    ensures ShellDecisions(s, Dispatch(w)) == [T.Decision(w, T.SKIP)]
       <==> KeyOf(w) in s.stuck || (exists i :: Owns(s, i, KeyOf(w)) && s.workers[i].wid != w)
  {
    ReachableInv(s);
    if KeyOf(w) in s.locks && KeyOf(w) !in s.stuck {
      var i :| Owns(s, i, KeyOf(w));
      assert s.workers[i].wid in LiveIds(s);
    }
  }
}
