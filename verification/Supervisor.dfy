/** The agent-free watcher supervisor: dispatchers take one lock directory per
    sanitised work id, detached workers run one finite child each.

    The emitted shell is modelled as a transition system.  One event is one file
    operation (or one process fork or exit); any event of any worker may come next,
    so a run is an arbitrary interleaving.  Commands the script protects with
    `|| true` or `2>/dev/null` carry an `ok` flag and may fail. */
module Supervisor {
  import opened Basics

  type Id = string
  type Key = string

  // ----- lock keys

  predicate KeyChar(c: char) {
    'A' <= c <= 'Z' || 'a' <= c <= 'z' || '0' <= c <= '9' || c == '.' || c == '_' || c == '-'
  }

  /** `tr -c 'A-Za-z0-9._-' '_'` */
  function KeyOf(wid: Id): Key {
    seq(|wid|, i requires 0 <= i < |wid| => if KeyChar(wid[i]) then wid[i] else '_')
  }

  // ----- state

  /** Where a worker stands.  `Claimed`: its lock exists but `run_finite &` is not forked yet. */
  datatype Stage =
    | Claimed
    | Materializing
    | Running(written: bool)   // the child is live; `written`: its config write succeeded
    | Exited                   // the child has returned; the counter is not read yet
    | Counting(next: nat)      // counter read, `next` computed, file not opened yet
    | Truncated(next: nat)     // counter file opened (and emptied), `next` not written yet
    | Cleaning                 // about to remove the child config
    | Releasing                // about to remove the lock
    | Done

  datatype Worker = Worker(wid: Id, stage: Stage)

  /** What `child-<key>.toml` holds. */
  datatype ConfigFile = Identity(bcName: string, workId: Id) | Partial

  /** `stuck` is history: the locks no worker owns (left over from an earlier start, the
      directory entries `.` and `..`, or a failed `rm -rf`).  `clean` is history too: no bump of
      the counter has overlapped another one or failed to write. */
  datatype State = State(
    bc: string,
    locks: set<Key>,
    stuck: set<Key>,
    configs: map<Key, ConfigFile>,
    counter: Option<nat>,
    pending: set<Id>,
    workers: seq<Worker>,
    clean: bool)

  /** `: > completed` has run; `mkdir -p` has created the lock directory without clearing it. */
  ghost predicate Init(s: State) {
    && s.workers == []
    && s.counter == None
    && s.clean
    && s.locks == s.stuck
    && {".", ".."} <= s.locks
  }

  // ----- events

  datatype Event =
    | Arrive(wid: Id)
    | Dispatch(wid: Id)
    | Fork(i: nat)
    | WriteConfig(i: nat, ok: bool, left: Option<ConfigFile>)
    | Exit(i: nat, answered: bool)
    | ReadCount(i: nat)
    | OpenCount(i: nat, ok: bool)
    | WriteCount(i: nat, ok: bool)
    | RemoveConfig(i: nat, ok: bool)
    | Release(i: nat, ok: bool)

  function SetStage(s: State, i: nat, stage: Stage): State
    requires i < |s.workers|
  {
    s.(workers := s.workers[i := s.workers[i].(stage := stage)])
  }

  predicate InWindow(w: Worker) {
    w.stage.Counting? || w.stage.Truncated?
  }

  /** `$(cat completed || echo 0)` inside `$(( ... + 1 ))`: an empty file counts as zero. */
  function Count(c: Option<nat>): nat {
    match c case None => 0 case Some(n) => n
  }

  predicate At(s: State, i: nat, stage: Stage) {
    i < |s.workers| && s.workers[i].stage == stage
  }

  /** `dispatch`: the empty id is ignored; `mkdir` succeeds exactly when the entry is absent. */
  function DispatchStep(s: State, wid: Id): State {
    if wid == "" || KeyOf(wid) in s.locks then s
    else s.(locks := s.locks + {KeyOf(wid)}, workers := s.workers + [Worker(wid, Claimed)])
  }

  function PutConfig(configs: map<Key, ConfigFile>, k: Key, file: Option<ConfigFile>): map<Key, ConfigFile> {
    match file
    case Some(f) => configs[k := f]
    case None => configs - {k}
  }

  /** One step; `None` when the event is not enabled. */
  function Next(s: State, e: Event): Option<State> {
    match e
    case Arrive(wid) => Some(s.(pending := s.pending + {wid}))
    case Dispatch(wid) => Some(DispatchStep(s, wid))
    case Fork(i) =>
      if At(s, i, Claimed) then Some(SetStage(s, i, Materializing)) else None
    case WriteConfig(i, ok, left) =>
      if At(s, i, Materializing) then
        var wid := s.workers[i].wid;
        var file := if ok then Some(Identity(s.bc, wid)) else left;
        Some(SetStage(s, i, Running(ok)).(configs := PutConfig(s.configs, KeyOf(wid), file)))
      else None
    case Exit(i, answered) =>
      if i < |s.workers| && s.workers[i].stage.Running? then
        var wid := s.workers[i].wid;
        Some(SetStage(s, i, Exited).(pending := if answered then s.pending - {wid} else s.pending))
      else None
    case ReadCount(i) =>
      if At(s, i, Exited) then
        var alone := forall j | 0 <= j < |s.workers| :: !InWindow(s.workers[j]);
        Some(SetStage(s, i, Counting(Count(s.counter) + 1)).(clean := s.clean && alone))
      else None
    case OpenCount(i, ok) =>
      if i < |s.workers| && s.workers[i].stage.Counting? then
        if ok then Some(SetStage(s, i, Truncated(s.workers[i].stage.next)).(counter := None))
        else Some(SetStage(s, i, Cleaning).(clean := false))
      else None
    case WriteCount(i, ok) =>
      if i < |s.workers| && s.workers[i].stage.Truncated? then
        if ok then Some(SetStage(s, i, Cleaning).(counter := Some(s.workers[i].stage.next)))
        else Some(SetStage(s, i, Cleaning).(clean := false))
      else None
    case RemoveConfig(i, ok) =>
      if At(s, i, Cleaning) then
        Some(SetStage(s, i, Releasing).(
             configs := if ok then s.configs - {KeyOf(s.workers[i].wid)} else s.configs))
      else None
    case Release(i, ok) =>
      if At(s, i, Releasing) then
        var k := KeyOf(s.workers[i].wid);
        Some(if ok then SetStage(s, i, Done).(locks := s.locks - {k})
             else SetStage(s, i, Done).(stuck := s.stuck + {k}))
      else None
  }

  /** Run a whole schedule; `None` when some event is not enabled when its turn comes. */
  function Exec(s: State, es: seq<Event>): Option<State>
    decreases |es|
  {
    if es == [] then Some(s)
    else match Next(s, es[0])
      case None => None
      case Some(t) => Exec(t, es[1..])
  }

  ghost predicate Reachable(s: State) {
    exists s0, es :: Init(s0) && Exec(s0, es) == Some(s)
  }

  // ----- the safety invariant

  ghost predicate Owns(s: State, i: int, k: Key) {
    0 <= i < |s.workers| && s.workers[i].stage != Done && KeyOf(s.workers[i].wid) == k
  }

  ghost predicate Owned(s: State, k: Key) {
    exists i :: Owns(s, i, k)
  }

  ghost predicate Exclusive(s: State) {
    forall i, j, k :: Owns(s, i, k) && Owns(s, j, k) ==> i == j
  }

  ghost predicate ConfigHeld(s: State, i: int) {
    0 <= i < |s.workers| && s.workers[i].stage == Running(true) ==>
      && KeyOf(s.workers[i].wid) in s.configs
      && s.configs[KeyOf(s.workers[i].wid)] == Identity(s.bc, s.workers[i].wid)
  }

  /** Locks are the disjoint union of the owned and the stuck ones, each owned by one worker,
      and every live child's config names that child. */
  ghost predicate Inv(s: State) {
    && {".", ".."} <= s.stuck
    && s.stuck <= s.locks
    && Exclusive(s)
    && (forall i, k :: Owns(s, i, k) ==> k in s.locks && k !in s.stuck)
    && (forall k :: k in s.locks && k !in s.stuck ==> Owned(s, k))
    && (forall i :: ConfigHeld(s, i))
  }

  /** Moving one live worker to another live stage leaves ownership as it was. */
  lemma StageMoveKeepsOwners(s: State, t: State, i: nat, stage: Stage)
    requires i < |s.workers| && s.workers[i].stage != Done && stage != Done
    requires t.workers == SetStage(s, i, stage).workers
    ensures forall j, k :: Owns(t, j, k) <==> Owns(s, j, k)
    ensures forall k :: Owned(t, k) <==> Owned(s, k)
  {
    forall k ensures Owned(t, k) <==> Owned(s, k) {
      if Owned(s, k) { var j :| Owns(s, j, k); assert Owns(t, j, k); }
      if Owned(t, k) { var j :| Owns(t, j, k); assert Owns(s, j, k); }
    }
  }

  lemma StageMoveKeepsInv(s: State, t: State, i: nat, stage: Stage)
    requires Inv(s) && i < |s.workers| && s.workers[i].stage != Done && stage != Done
    requires t.workers == SetStage(s, i, stage).workers
    requires t.locks == s.locks && t.stuck == s.stuck && t.bc == s.bc
    requires forall k :: k != KeyOf(s.workers[i].wid) && k in s.configs ==> k in t.configs && t.configs[k] == s.configs[k]
    requires ConfigHeld(t, i)
    ensures Inv(t)
  {
    StageMoveKeepsOwners(s, t, i, stage);
    forall j ensures ConfigHeld(t, j) {
      if j != i && 0 <= j < |s.workers| && s.workers[j].stage == Running(true) {
        assert ConfigHeld(s, j);
        assert Owns(s, i, KeyOf(s.workers[i].wid)) && Owns(s, j, KeyOf(s.workers[j].wid));
      }
    }
  }

  lemma DispatchKeepsInv(s: State, wid: Id)
    requires Inv(s)
    ensures Inv(DispatchStep(s, wid))
  {
    var t := DispatchStep(s, wid);
    if t != s {
      var n := |s.workers|;
      assert forall j, k :: Owns(t, j, k) <==> Owns(s, j, k) || (j == n && k == KeyOf(wid));
      forall k | k in t.locks && k !in t.stuck ensures Owned(t, k) {
        if k == KeyOf(wid) {
          assert Owns(t, n, k);
        } else {
          var j :| Owns(s, j, k);
          assert Owns(t, j, k);
        }
      }
      forall j ensures ConfigHeld(t, j) {
        assert ConfigHeld(s, j);
      }
    }
  }

  lemma ReleaseKeepsInv(s: State, i: nat, ok: bool)
    requires Inv(s) && At(s, i, Releasing)
    ensures Inv(Next(s, Release(i, ok)).value)
  {
    var t := Next(s, Release(i, ok)).value;
    var mine := KeyOf(s.workers[i].wid);
    assert Owns(s, i, mine);
    assert forall j, k :: Owns(t, j, k) <==> Owns(s, j, k) && j != i;
    forall k | k in t.locks && k !in t.stuck ensures Owned(t, k) {
      var j :| Owns(s, j, k);
      assert j != i;
      assert Owns(t, j, k);
    }
    forall j ensures ConfigHeld(t, j) {
      assert ConfigHeld(s, j);
    }
  }

  lemma NextKeepsInv(s: State, e: Event)
    requires Inv(s) && Next(s, e).Some?
    ensures Inv(Next(s, e).value)
  {
    var t := Next(s, e).value;
    match e
    case Arrive(_) =>
      assert forall j, k :: Owns(t, j, k) <==> Owns(s, j, k);
      forall k | k in t.locks && k !in t.stuck ensures Owned(t, k) {
        var j :| Owns(s, j, k);
        assert Owns(t, j, k);
      }
      forall j ensures ConfigHeld(t, j) {
        assert ConfigHeld(s, j);
      }
    case Dispatch(wid) => DispatchKeepsInv(s, wid);
    case Release(i, ok) => ReleaseKeepsInv(s, i, ok);
    case Fork(i) => StageMoveKeepsInv(s, t, i, t.workers[i].stage);
    case WriteConfig(i, _, _) => StageMoveKeepsInv(s, t, i, t.workers[i].stage);
    case Exit(i, _) => StageMoveKeepsInv(s, t, i, t.workers[i].stage);
    case ReadCount(i) => StageMoveKeepsInv(s, t, i, t.workers[i].stage);
    case OpenCount(i, _) => StageMoveKeepsInv(s, t, i, t.workers[i].stage);
    case WriteCount(i, _) => StageMoveKeepsInv(s, t, i, t.workers[i].stage);
    case RemoveConfig(i, _) => StageMoveKeepsInv(s, t, i, t.workers[i].stage);
  }

  lemma {:induction false} ExecKeepsInv(s: State, es: seq<Event>)
    requires Inv(s) && Exec(s, es).Some?
    ensures Inv(Exec(s, es).value)
    decreases |es|
  {
    if es != [] {
      NextKeepsInv(s, es[0]);
      ExecKeepsInv(Next(s, es[0]).value, es[1..]);
    }
  }

  lemma ReachableInv(s: State)
    requires Reachable(s)
    ensures Inv(s)
  {
    var s0, es :| Init(s0) && Exec(s0, es) == Some(s);
    ExecKeepsInv(s0, es);
  }

  // ----- what every interleaving guarantees

  /** A lock outside the stuck ones exists exactly when a worker is between its `mkdir` and its
      `rm -rf`; that worker is the only one with this key. */
  lemma LockIffOwned(s: State, k: Key)
    requires Reachable(s)
    ensures k in s.locks <==> k in s.stuck || Owned(s, k)
    ensures !(k in s.stuck && Owned(s, k))
    ensures forall i, j :: Owns(s, i, k) && Owns(s, j, k) ==> i == j
  {
    ReachableInv(s);
  }

  /** No two children with one key are ever live together, even when their ids differ. */
  lemma NoTwoLiveChildren(s: State, i: nat, j: nat)
    requires Reachable(s)
    requires i < |s.workers| && j < |s.workers|
    requires s.workers[i].stage.Running? && s.workers[j].stage.Running?
    requires KeyOf(s.workers[i].wid) == KeyOf(s.workers[j].wid)
    ensures i == j
  {
    ReachableInv(s);
    assert Owns(s, i, KeyOf(s.workers[i].wid)) && Owns(s, j, KeyOf(s.workers[i].wid));
  }

  /** From a successful config write until the child ends, `child-<key>.toml` names this child. */
  lemma LiveChildReadsItsOwnConfig(s: State, i: nat)
    requires Reachable(s) && At(s, i, Running(true))
    ensures KeyOf(s.workers[i].wid) in s.configs
    ensures s.configs[KeyOf(s.workers[i].wid)] == Identity(s.bc, s.workers[i].wid)
  {
    ReachableInv(s);
    assert ConfigHeld(s, i);
  }

  // ----- facts about runs used by the other modules

  lemma {:induction false} ExecAppend(s: State, a: seq<Event>, b: seq<Event>)
    requires Exec(s, a).Some?
    ensures Exec(s, a + b) == Exec(Exec(s, a).value, b)
    decreases |a|
  {
    if a == [] {
      assert a + b == b;
    } else {
      assert (a + b)[0] == a[0] && (a + b)[1..] == a[1..] + b;
      ExecAppend(Next(s, a[0]).value, a[1..], b);
    }
  }
}
