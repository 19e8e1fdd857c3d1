/** The shared completed-run counter.  Reading it, opening it for writing (which empties it) and
    writing it are three separate steps of every worker. */
module SupervisorCounter {
  import opened Basics
  import opened Supervisor

  function Rank(st: Stage): nat {
    match st
    case Claimed => 0
    case Materializing => 1
    case Running(_) => 2
    case Exited => 3
    case Counting(_) => 4
    case Truncated(_) => 5
    case Cleaning => 6
    case Releasing => 7
    case Done => 8
  }

  /** How many workers have come at least as far as rank `r`. */
  function Past(ws: seq<Worker>, r: nat): nat {
    if ws == [] then 0
    else (if Rank(ws[0].stage) >= r then 1 else 0) + Past(ws[1..], r)
  }

  /** Children that have returned, bumps that have begun, and bumps that are over. */
  function Ended(s: State): nat { Past(s.workers, 3) }
  function Begun(s: State): nat { Past(s.workers, 4) }
  function Bumped(s: State): nat { Past(s.workers, 6) }

  lemma {:induction false} PastAppend(ws: seq<Worker>, w: Worker, r: nat)
    ensures Past(ws + [w], r) == Past(ws, r) + (if Rank(w.stage) >= r then 1 else 0)
  {
    if ws == [] {
      assert ws + [w] == [w];
    } else {
      assert (ws + [w])[0] == ws[0] && (ws + [w])[1..] == ws[1..] + [w];
      PastAppend(ws[1..], w, r);
    }
  }

  lemma {:induction false} PastUpdate(ws: seq<Worker>, i: nat, w: Worker, r: nat)
    requires i < |ws|
    ensures Past(ws[i := w], r) + (if Rank(ws[i].stage) >= r then 1 else 0)
         == Past(ws, r) + (if Rank(w.stage) >= r then 1 else 0)
  {
    if i == 0 {
      assert ws[0 := w][1..] == ws[1..];
    } else {
      assert ws[i := w][0] == ws[0] && ws[i := w][1..] == ws[1..][i - 1 := w];
      PastUpdate(ws[1..], i - 1, w, r);
    }
  }

  lemma {:induction false} PastMonotone(ws: seq<Worker>, q: nat, r: nat)
    requires q <= r
    ensures Past(ws, r) <= Past(ws, q)
  {
    if ws != [] { PastMonotone(ws[1..], q, r); }
  }

  /** Begun and finished bumps differ exactly when some worker is inside its bump. */
  lemma {:induction false} WindowGap(ws: seq<Worker>)
    ensures Past(ws, 6) <= Past(ws, 4)
    ensures Past(ws, 6) == Past(ws, 4) <==> forall j | 0 <= j < |ws| :: !InWindow(ws[j])
  {
    if ws != [] {
      WindowGap(ws[1..]);
      assert forall j | 1 <= j < |ws| :: ws[1..][j - 1] == ws[j];
      assert InWindow(ws[0]) <==> Rank(ws[0].stage) >= 4 && !(Rank(ws[0].stage) >= 6);
      if exists j :: 0 <= j < |ws[1..]| && InWindow(ws[1..][j]) {
        var j :| 0 <= j < |ws[1..]| && InWindow(ws[1..][j]);
        assert InWindow(ws[j + 1]);
      }
    }
  }

  function Held(w: Worker): nat
    requires InWindow(w)
  {
    w.stage.next
  }

  /** The file holds at most `file`, and every number about to be written is at most `held`. */
  ghost predicate Below(s: State, file: int, held: int) {
    && Count(s.counter) <= file
    && (forall i | 0 <= i < |s.workers| && InWindow(s.workers[i]) :: Held(s.workers[i]) <= held)
  }

  ghost predicate NoWindow(s: State) {
    forall i | 0 <= i < |s.workers| :: !InWindow(s.workers[i])
  }

  /** The one open bump holds exactly the next number, and with no open bump the file is exact. */
  ghost predicate Single(s: State) {
    && (forall i, j | 0 <= i < |s.workers| && 0 <= j < |s.workers|
                      && InWindow(s.workers[i]) && InWindow(s.workers[j]) :: i == j)
    && (forall i | 0 <= i < |s.workers| && InWindow(s.workers[i]) :: Held(s.workers[i]) == Bumped(s) + 1)
    && (NoWindow(s) ==> Count(s.counter) == Bumped(s))
  }

  /** No number in play is more than one above the finished bumps; a clean history has one exact bump at a
      time, and after an unclean one every number in play is below the begun bumps. */
  ghost predicate CountInv(s: State) {
    && Below(s, Bumped(s), Bumped(s) + 1)
    && (s.clean ==> Single(s))
    && (!s.clean ==> Below(s, Begun(s) - 1, Begun(s) - 1))
  }

  /** How a move of one worker changes the two counts. */
  lemma MoveCounts(s: State, i: nat, stage: Stage)
    requires i < |s.workers|
    ensures var t := SetStage(s, i, stage);
            && Bumped(t) + (if Rank(s.workers[i].stage) >= 6 then 1 else 0) == Bumped(s) + (if Rank(stage) >= 6 then 1 else 0)
            && Begun(t) + (if Rank(s.workers[i].stage) >= 4 then 1 else 0) == Begun(s) + (if Rank(stage) >= 4 then 1 else 0)
            && Bumped(t) <= Begun(t) && Bumped(s) <= Begun(s)
  {
    PastUpdate(s.workers, i, s.workers[i].(stage := stage), 6);
    PastUpdate(s.workers, i, s.workers[i].(stage := stage), 4);
    WindowGap(s.workers);
    WindowGap(SetStage(s, i, stage).workers);
  }

  /** `t` is `s` with worker `i` moved to `stage`; file and history may change too. */
  ghost predicate Moved(s: State, t: State, i: nat, stage: Stage) {
    i < |s.workers| && t.workers == SetStage(s, i, stage).workers
  }

  lemma MoveKeepsBelow(s: State, t: State, i: nat, stage: Stage, file: int, held: int, file2: int, held2: int)
    requires Moved(s, t, i, stage) && Below(s, file, held) && held <= held2
    requires Count(t.counter) <= file2
    requires InWindow(t.workers[i]) ==> Held(t.workers[i]) <= held2
    ensures Below(t, file2, held2)
  {
    assert forall j | 0 <= j < |s.workers| && j != i :: t.workers[j] == s.workers[j];
  }

  /** A move that stays outside the bump keeps the single bump. */
  lemma OutsideMoveKeepsSingle(s: State, t: State, i: nat, stage: Stage)
    requires Moved(s, t, i, stage) && Single(s) && t.counter == s.counter && Bumped(t) == Bumped(s)
    requires !InWindow(s.workers[i]) && !InWindow(t.workers[i])
    ensures Single(t)
  {
    assert forall j | 0 <= j < |s.workers| && j != i :: t.workers[j] == s.workers[j];
    if NoWindow(t) {
      forall j | 0 <= j < |s.workers| ensures !InWindow(s.workers[j]) { assert !InWindow(t.workers[j]); }
    }
  }

  lemma OutsideMoveKeepsCountInv(s: State, t: State, i: nat, stage: Stage)
    requires CountInv(s) && Moved(s, t, i, stage) && t.counter == s.counter && t.clean == s.clean
    requires (Rank(s.workers[i].stage) < 4 && Rank(stage) < 4) || (Rank(s.workers[i].stage) >= 6 && Rank(stage) >= 6)
    ensures CountInv(t)
  {
    MoveCounts(s, i, stage);
    MoveKeepsBelow(s, t, i, stage, Bumped(s), Bumped(s) + 1, Bumped(t), Bumped(t) + 1);
    if s.clean {
      OutsideMoveKeepsSingle(s, t, i, stage);
    } else {
      MoveKeepsBelow(s, t, i, stage, Begun(s) - 1, Begun(s) - 1, Begun(t) - 1, Begun(t) - 1);
    }
  }

  /** The first bump to open is the single one. */
  lemma ReadOpensSingle(s: State, t: State, i: nat)
    requires Single(s) && NoWindow(s) && Bumped(t) == Bumped(s)
    requires Moved(s, t, i, Counting(Count(s.counter) + 1))
    ensures Single(t)
  {
    assert forall j | 0 <= j < |s.workers| && j != i :: t.workers[j] == s.workers[j];
    assert InWindow(t.workers[i]);
  }

  lemma ReadKeepsCountInv(s: State, i: nat)
    requires CountInv(s) && At(s, i, Exited)
    ensures CountInv(Next(s, ReadCount(i)).value)
  {
    var t := Next(s, ReadCount(i)).value;
    var stage := Counting(Count(s.counter) + 1);
    MoveCounts(s, i, stage);
    WindowGap(s.workers);
    MoveKeepsBelow(s, t, i, stage, Bumped(s), Bumped(s) + 1, Bumped(t), Bumped(t) + 1);
    if t.clean {
      ReadOpensSingle(s, t, i);
    } else if s.clean {
      MoveKeepsBelow(s, t, i, stage, Bumped(s), Bumped(s) + 1, Begun(t) - 1, Begun(t) - 1);
    } else {
      MoveKeepsBelow(s, t, i, stage, Begun(s) - 1, Begun(s) - 1, Begun(t) - 1, Begun(t) - 1);
    }
  }

  /** The other workers are outside the single bump, and stay there. */
  lemma OthersOutside(s: State, t: State, i: nat)
    requires i < |s.workers| == |t.workers| && InWindow(s.workers[i]) && Single(s)
    requires forall j | 0 <= j < |s.workers| && j != i :: t.workers[j] == s.workers[j]
    ensures forall j | 0 <= j < |t.workers| && j != i :: !InWindow(t.workers[j])
  {
  }

  /** The single bump goes on. */
  lemma OpenKeepsSingle(s: State, t: State, i: nat)
    requires i < |s.workers| && s.workers[i].stage.Counting? && Single(s) && Bumped(t) == Bumped(s)
    requires Moved(s, t, i, Truncated(s.workers[i].stage.next))
    ensures Single(t)
  {
    assert InWindow(s.workers[i]) && InWindow(t.workers[i]);
    OthersOutside(s, t, i);
  }

  /** Within a bump the begun ones exceed the finished ones. */
  lemma GapInWindow(s: State, i: nat)
    requires i < |s.workers| && InWindow(s.workers[i])
    ensures Bumped(s) + 1 <= Begun(s)
  {
    WindowGap(s.workers);
  }

  lemma OpenKeepsCountInv(s: State, i: nat, ok: bool)
    requires CountInv(s) && i < |s.workers| && s.workers[i].stage.Counting?
    ensures CountInv(Next(s, OpenCount(i, ok)).value)
  {
    var t := Next(s, OpenCount(i, ok)).value;
    var stage := t.workers[i].stage;
    MoveCounts(s, i, stage);
    assert InWindow(s.workers[i]);
    GapInWindow(s, i);
    MoveKeepsBelow(s, t, i, stage, Bumped(s), Bumped(s) + 1, Bumped(t), Bumped(t) + 1);
    if t.clean {
      OpenKeepsSingle(s, t, i);
    } else if s.clean {
      FailedBumpIsBelow(s, t, i, stage);
    } else {
      MoveKeepsBelow(s, t, i, stage, Begun(s) - 1, Begun(s) - 1, Begun(t) - 1, Begun(t) - 1);
    }
  }

  /** When the single bump of a clean history fails, nothing is in play and the file is behind. */
  lemma FailedBumpIsBelow(s: State, t: State, i: nat, stage: Stage)
    requires i < |s.workers| && InWindow(s.workers[i]) && Single(s) && Below(s, Bumped(s), Bumped(s) + 1)
    requires Moved(s, t, i, stage) && stage == Cleaning && t.counter == s.counter && Begun(t) == Begun(s) >= Bumped(s) + 1
    ensures Below(t, Begun(t) - 1, Begun(t) - 1)
  {
    OthersOutside(s, t, i);
  }

  /** The single bump writes its number. */
  lemma WriteEndsSingle(s: State, t: State, i: nat)
    requires i < |s.workers| && s.workers[i].stage.Truncated? && Single(s) && Bumped(t) == Bumped(s) + 1
    requires Moved(s, t, i, Cleaning) && t.counter == Some(s.workers[i].stage.next)
    ensures Single(t)
  {
    assert InWindow(s.workers[i]);
    OthersOutside(s, t, i);
  }

  lemma WriteKeepsCountInv(s: State, i: nat, ok: bool)
    requires CountInv(s) && i < |s.workers| && s.workers[i].stage.Truncated?
    ensures CountInv(Next(s, WriteCount(i, ok)).value)
  {
    var t := Next(s, WriteCount(i, ok)).value;
    MoveCounts(s, i, Cleaning);
    assert InWindow(s.workers[i]);
    GapInWindow(s, i);
    MoveKeepsBelow(s, t, i, Cleaning, Bumped(s), Bumped(s) + 1, Bumped(t), Bumped(t) + 1);
    if t.clean {
      WriteEndsSingle(s, t, i);
    } else if s.clean {
      FailedBumpIsBelow(s, t, i, Cleaning);
    } else {
      MoveKeepsBelow(s, t, i, Cleaning, Begun(s) - 1, Begun(s) - 1, Begun(t) - 1, Begun(t) - 1);
    }
  }

  lemma DispatchKeepsCountInv(s: State, wid: Id)
    requires CountInv(s)
    ensures CountInv(DispatchStep(s, wid))
  {
    var t := DispatchStep(s, wid);
    if t != s {
      PastAppend(s.workers, Worker(wid, Claimed), 6);
      PastAppend(s.workers, Worker(wid, Claimed), 4);
      DispatchKeepsParts(s, t, wid);
    }
  }

  lemma DispatchKeepsParts(s: State, t: State, wid: Id)
    requires t.workers == s.workers + [Worker(wid, Claimed)] && t.counter == s.counter
    requires Bumped(t) == Bumped(s) && Begun(t) == Begun(s)
    ensures forall f, h :: Below(s, f, h) ==> Below(t, f, h)
    ensures Single(s) ==> Single(t)
  {
    assert forall j | 0 <= j < |s.workers| :: t.workers[j] == s.workers[j];
    if NoWindow(t) {
      forall j | 0 <= j < |s.workers| ensures !InWindow(s.workers[j]) { assert !InWindow(t.workers[j]); }
    }
  }

  /** The steps of a worker that do not touch the counter. */
  lemma OtherStepKeepsCountInv(s: State, e: Event)
    requires CountInv(s) && Next(s, e).Some?
    requires e.Fork? || e.WriteConfig? || e.Exit? || e.RemoveConfig? || e.Release?
    ensures CountInv(Next(s, e).value)
  {
    var t := Next(s, e).value;
    var stage := t.workers[e.i].stage;
    OutsideMoveKeepsCountInv(s, t, e.i, stage);
  }

  lemma NextKeepsCountInv(s: State, e: Event)
    requires CountInv(s) && Next(s, e).Some?
    ensures CountInv(Next(s, e).value)
  {
    match e
    case Arrive(_) =>
    case Dispatch(wid) => DispatchKeepsCountInv(s, wid);
    case ReadCount(i) => ReadKeepsCountInv(s, i);
    case OpenCount(i, ok) => OpenKeepsCountInv(s, i, ok);
    case WriteCount(i, ok) => WriteKeepsCountInv(s, i, ok);
    case _ => OtherStepKeepsCountInv(s, e);
  }

  lemma {:induction false} ExecKeepsCountInv(s: State, es: seq<Event>)
    requires CountInv(s) && Exec(s, es).Some?
    ensures CountInv(Exec(s, es).value)
    decreases |es|
  {
    if es != [] {
      NextKeepsCountInv(s, es[0]);
      ExecKeepsCountInv(Next(s, es[0]).value, es[1..]);
    }
  }

  /** Under every interleaving the counter never exceeds the finished bumps, hence never the
      children that have returned. */
  lemma CounterNeverAhead(s: State)
    requires Reachable(s)
    ensures Count(s.counter) <= Bumped(s) <= Ended(s)
  {
    var s0, es :| Init(s0) && Exec(s0, es) == Some(s);
    ExecKeepsCountInv(s0, es);
    PastMonotone(s.workers, 3, 6);
  }

  /** When no bump is under way the counter is exact if and only if no two bumps ever overlapped
      and none failed to write. */
  lemma CounterExactIffClean(s: State)
    requires Reachable(s)
    requires forall i | 0 <= i < |s.workers| :: !InWindow(s.workers[i])
    ensures Count(s.counter) == Bumped(s) <==> s.clean
  {
    var s0, es :| Init(s0) && Exec(s0, es) == Some(s);
    ExecKeepsCountInv(s0, es);
    WindowGap(s.workers);
  }

  // ----- the counter is not monotonic

  function Lifecycle(i: nat, wid: Id): seq<Event> {
    [Dispatch(wid), Fork(i), WriteConfig(i, true, None), Exit(i, true)]
  }

  function ThreeChildren(a: Id, b: Id, c: Id): seq<Event> {
    Lifecycle(0, a) + Lifecycle(1, b) + Lifecycle(2, c)
  }

  /** One bump from its read to its write. */
  function Bump(i: nat): seq<Event> {
    [ReadCount(i), OpenCount(i, true), WriteCount(i, true)]
  }

  /** The first worker reads the counter, then the other two bump it. */
  function TwoBumpsAfterARead(): seq<Event> {
    [ReadCount(0)] + Bump(1) + Bump(2)
  }

  /** Three ids whose keys differ and are free. */
  predicate FreeIds(s: State, a: Id, b: Id, c: Id) {
    && a != "" && b != "" && c != ""
    && KeyOf(a) !in s.locks && KeyOf(b) !in s.locks && KeyOf(c) !in s.locks
    && KeyOf(a) != KeyOf(b) && KeyOf(a) != KeyOf(c) && KeyOf(b) != KeyOf(c)
  }

  /** Two more steps of one run, the first worker's stale write, take the published number from
      2 down to 1. */
  lemma CounterCanGoDown(s0: State, a: Id, b: Id, c: Id)
    requires Init(s0) && FreeIds(s0, a, b, c)
    ensures var run := ThreeChildren(a, b, c) + TwoBumpsAfterARead();
            && Exec(s0, run).Some? && Exec(s0, run).value.counter == Some(2)
            && var more := run + [OpenCount(0, true), WriteCount(0, true)];
               Exec(s0, more).Some? && Exec(s0, more).value.counter == Some(1)
  {
    var s3 := RunThreeChildren(s0, a, b, c);
    var s4 := OverlappingBumps(s3);
    Chain(s0, ThreeChildren(a, b, c), s3, TwoBumpsAfterARead(), s4);
    StaleWrite(s0, s4, ThreeChildren(a, b, c) + TwoBumpsAfterARead());
  }

  lemma StaleWrite(s0: State, s: State, before: seq<Event>)
    requires Exec(s0, before) == Some(s)
    requires |s.workers| == 3 && s.workers[0].stage == Counting(1)
    ensures var after := Exec(s0, before + [OpenCount(0, true), WriteCount(0, true)]);
            after.Some? && after.value.counter == Some(1)
  {
    ExecAppend(s0, before, [OpenCount(0, true), WriteCount(0, true)]);
    Exec2(s, OpenCount(0, true), WriteCount(0, true));
  }

  lemma RunThreeChildren(s0: State, a: Id, b: Id, c: Id) returns (s3: State)
    requires Init(s0) && FreeIds(s0, a, b, c)
    ensures Exec(s0, ThreeChildren(a, b, c)) == Some(s3)
    ensures |s3.workers| == 3 && s3.counter == None
    ensures forall i | 0 <= i < 3 :: s3.workers[i].stage == Exited
  {
    var s1 := RunLifecycle(s0, a);
    var s2 := RunLifecycle(s1, b);
    s3 := RunLifecycle(s2, c);
    Chain(s0, Lifecycle(0, a), s1, Lifecycle(1, b), s2);
    Chain(s0, Lifecycle(0, a) + Lifecycle(1, b), s2, Lifecycle(2, c), s3);
  }

  /** Two runs one after the other. */
  lemma Chain(s: State, first: seq<Event>, t: State, second: seq<Event>, u: State)
    requires Exec(s, first) == Some(t) && Exec(t, second) == Some(u)
    ensures Exec(s, first + second) == Some(u)
  {
    ExecAppend(s, first, second);
  }

  lemma Exec1(s: State, e: Event)
    requires Next(s, e).Some?
    ensures Exec(s, [e]) == Next(s, e)
  {
    var t := Next(s, e).value;
    assert [e][1..] == [];
    assert Exec(t, []) == Some(t);
  }

  lemma Exec2(s: State, d: Event, e: Event)
    requires Next(s, d).Some?
    ensures Exec(s, [d, e]) == Next(Next(s, d).value, e)
  {
    var t := Next(s, d).value;
    assert [d, e][1..] == [e] && [e][1..] == [];
    assert Exec(t, [e]) == match Next(t, e) case None => None case Some(u) => Exec(u, []);
  }

  lemma RunLifecycle(s: State, wid: Id) returns (t: State)
    requires wid != "" && KeyOf(wid) !in s.locks
    ensures Exec(s, Lifecycle(|s.workers|, wid)) == Some(t)
    ensures t.workers == s.workers + [Worker(wid, Exited)]
    ensures t.locks == s.locks + {KeyOf(wid)} && t.counter == s.counter
  {
    var i := |s.workers|;
    var a := Next(s, Dispatch(wid)).value;
    var b := Next(a, Fork(i)).value;
    var c := Next(b, WriteConfig(i, true, None)).value;
    t := Next(c, Exit(i, true)).value;
    Exec2(s, Dispatch(wid), Fork(i));
    Exec2(b, WriteConfig(i, true, None), Exit(i, true));
    ExecAppend(s, [Dispatch(wid), Fork(i)], [WriteConfig(i, true, None), Exit(i, true)]);
    assert Lifecycle(i, wid) == [Dispatch(wid), Fork(i)] + [WriteConfig(i, true, None), Exit(i, true)];
  }

  lemma RunBump(s: State, i: nat) returns (t: State)
    requires At(s, i, Exited)
    ensures Exec(s, Bump(i)) == Some(t)
    ensures t.counter == Some(Count(s.counter) + 1)
    ensures t.workers == s.workers[i := s.workers[i].(stage := Cleaning)]
  {
    var a := Next(s, ReadCount(i)).value;
    var b := Next(a, OpenCount(i, true)).value;
    t := Next(b, WriteCount(i, true)).value;
    Exec2(s, ReadCount(i), OpenCount(i, true));
    ExecAppend(s, [ReadCount(i), OpenCount(i, true)], [WriteCount(i, true)]);
    Exec1(b, WriteCount(i, true));
    assert Bump(i) == [ReadCount(i), OpenCount(i, true)] + [WriteCount(i, true)];
  }

  lemma OverlappingBumps(s: State) returns (t: State)
    requires |s.workers| == 3 && s.counter == None
    requires forall i | 0 <= i < 3 :: s.workers[i].stage == Exited
    ensures Exec(s, TwoBumpsAfterARead()) == Some(t)
    ensures |t.workers| == 3 && t.workers[0].stage == Counting(1) && t.counter == Some(2)
  {
    var a := Next(s, ReadCount(0)).value;
    Exec1(s, ReadCount(0));
    var b := RunBump(a, 1);
    t := RunBump(b, 2);
    ExecAppend(s, [ReadCount(0)], Bump(1));
    ExecAppend(s, [ReadCount(0)] + Bump(1), Bump(2));
  }
}
