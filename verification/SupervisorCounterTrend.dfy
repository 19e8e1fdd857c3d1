/** When the completed-run counter rises and when it drops: the published number, and the numbers written. */
module SupervisorCounterTrend {
  import opened Supervisor
  import opened SupervisorCounter

  // ----- runs as lists of states

  /** `states[k]` is the state before event `k`. */
  predicate Trace(states: seq<State>, es: seq<Event>) {
    |states| == |es| + 1 &&
    forall k | 0 <= k < |es| :: Next(states[k], es[k]).Some? && Next(states[k], es[k]).value == states[k + 1]
  }

  function StatesOf(s: State, es: seq<Event>): (states: seq<State>)
    requires Exec(s, es).Some?
    ensures |states| == |es| + 1 && states[0] == s
    decreases |es|
  {
    if es == [] then [s] else [s] + StatesOf(Next(s, es[0]).value, es[1..])
  }

  lemma TraceHead(s: State, states: seq<State>, e: Event, es: seq<Event>)
    requires Trace(states, es) && Next(s, e).Some? && Next(s, e).value == states[0]
    ensures Trace([s] + states, [e] + es)
  {
    var all, events := [s] + states, [e] + es;
    forall k | 0 <= k < |events| ensures Next(all[k], events[k]).Some? && Next(all[k], events[k]).value == all[k + 1] {
      if k > 0 { TraceStep(states, es, k - 1); }
    }
  }

  /** Every run is a trace. */
  lemma {:induction false} RunIsTrace(s: State, es: seq<Event>)
    requires Exec(s, es).Some?
    ensures Trace(StatesOf(s, es), es) && StatesOf(s, es)[|es|] == Exec(s, es).value
    decreases |es|
  {
    if es != [] {
      var t := Next(s, es[0]).value;
      RunIsTrace(t, es[1..]);
      TraceHead(s, StatesOf(t, es[1..]), es[0], es[1..]);
      assert es == [es[0]] + es[1..];
    }
  }

  lemma TraceStep(states: seq<State>, es: seq<Event>, k: nat)
    requires Trace(states, es) && k < |es|
    ensures Next(states[k], es[k]).Some? && Next(states[k], es[k]).value == states[k + 1]
  {
  }

  lemma {:induction false} TraceKeepsCountInv(states: seq<State>, es: seq<Event>, n: nat)
    requires Trace(states, es) && n <= |es| && Init(states[0])
    ensures CountInv(states[n])
  {
    if n > 0 {
      TraceKeepsCountInv(states, es, n - 1);
      TraceStep(states, es, n - 1);
      NextKeepsCountInv(states[n - 1], es[n - 1]);
    }
  }

  // ----- the published number

  function Published(s: State): nat {
    Count(s.counter)
  }

  /** No step makes the published number lower; an emptied file publishes 0. */
  predicate NeverDrops(states: seq<State>, n: nat)
    requires n < |states|
  {
    forall k | 0 <= k < n :: Published(states[k]) <= Published(states[k + 1])
  }

  /** The step opens the file for writing, which empties it, while it publishes a number. */
  predicate EmptiesCount(s: State, e: Event) {
    e.OpenCount? && e.ok && Published(s) >= 1
  }

  predicate NeverEmpties(states: seq<State>, es: seq<Event>, n: nat)
    requires n <= |es| < |states|
  {
    forall k | 0 <= k < n :: !EmptiesCount(states[k], es[k])
  }

  ghost predicate LowNumber(w: Worker, published: nat) {
    match w.stage
    case Counting(next) => 1 <= next <= published + 1
    case Truncated(next) => next == 1
    case _ => true
  }

  /** As long as a published number has never been emptied, at most 1 is published, and every file that is
      open for writing will get a 1. */
  ghost predicate LowCount(s: State) {
    && Published(s) <= 1
    && (forall i | 0 <= i < |s.workers| :: LowNumber(s.workers[i], Published(s)))
  }

  lemma StepKeepsLowCount(s: State, e: Event)
    requires LowCount(s) && Next(s, e).Some? && !EmptiesCount(s, e)
    ensures LowCount(Next(s, e).value) && Published(s) <= Published(Next(s, e).value)
  {
    match e
    case Arrive(_) =>
    case Dispatch(wid) =>
      assert forall i | 0 <= i < |s.workers| :: DispatchStep(s, wid).workers[i] == s.workers[i];
    case ReadCount(i) => OneWorkerMoves(s, Next(s, e).value, i);
    case OpenCount(i, _) => OneWorkerMoves(s, Next(s, e).value, i);
    case WriteCount(i, _) => OneWorkerMoves(s, Next(s, e).value, i);
    case _ => OtherStepKeepsLowCount(s, e);
  }

  lemma OtherStepKeepsLowCount(s: State, e: Event)
    requires LowCount(s) && Next(s, e).Some?
    requires e.Fork? || e.WriteConfig? || e.Exit? || e.RemoveConfig? || e.Release?
    ensures LowCount(Next(s, e).value) && Published(s) <= Published(Next(s, e).value)
  {
    OneWorkerMoves(s, Next(s, e).value, e.i);
  }

  lemma OneWorkerMoves(s: State, t: State, i: nat)
    requires LowCount(s) && i < |s.workers| == |t.workers|
    requires forall j | 0 <= j < |s.workers| && j != i :: t.workers[j] == s.workers[j]
    requires Published(s) <= Published(t) <= 1 && LowNumber(t.workers[i], Published(t))
    ensures LowCount(t)
  {
    forall j | 0 <= j < |t.workers| ensures LowNumber(t.workers[j], Published(t)) {
      assert LowNumber(s.workers[j], Published(s));
    }
  }

  lemma {:induction false} LowUntilEmptied(states: seq<State>, es: seq<Event>, n: nat)
    requires Trace(states, es) && n <= |es| && Init(states[0]) && NeverEmpties(states, es, n)
    ensures LowCount(states[n]) && NeverDrops(states, n)
  {
    if n > 0 {
      LowUntilEmptied(states, es, n - 1);
      TraceStep(states, es, n - 1);
      StepKeepsLowCount(states[n - 1], es[n - 1]);
    }
  }

  /** Over every run from a fresh start the published number never drops if and only if no worker opens the
      counter file for writing while the file publishes a number. */
  lemma PublishedNeverDropsIff(states: seq<State>, es: seq<Event>)
    requires Trace(states, es) && Init(states[0])
    ensures NeverDrops(states, |es|) <==> NeverEmpties(states, es, |es|)
  {
    if NeverEmpties(states, es, |es|) {
      LowUntilEmptied(states, es, |es|);
    } else {
      var k :| 0 <= k < |es| && EmptiesCount(states[k], es[k]);
      TraceStep(states, es, k);
      assert Published(states[k + 1]) == 0;
    }
  }

  // ----- the published number of a clean run

  /** How many of the first `n` events open the file for writing. */
  function Opens(es: seq<Event>, n: nat): nat
    requires n <= |es|
  {
    if n == 0 then 0 else Opens(es, n - 1) + (if es[n - 1].OpenCount? && es[n - 1].ok then 1 else 0)
  }

  ghost predicate OpenFile(s: State) {
    exists i :: 0 <= i < |s.workers| && s.workers[i].stage.Truncated?
  }

  ghost predicate Reading(s: State) {
    exists i :: 0 <= i < |s.workers| && s.workers[i].stage.Counting?
  }

  /** In a clean history each bump opens the file once, and until it does the file is exact. */
  ghost predicate OpensMatch(s: State, opens: nat) {
    && opens == Bumped(s) + (if OpenFile(s) then 1 else 0)
    && (Reading(s) ==> Published(s) == Bumped(s))
  }

  /** How one step of worker `i` changes the file's being open and being read. */
  lemma ReadingMoves(s: State, t: State, i: nat)
    requires i < |s.workers| == |t.workers|
    requires forall j | 0 <= j < |s.workers| && j != i :: t.workers[j] == s.workers[j]
    ensures !s.workers[i].stage.Truncated? && !t.workers[i].stage.Truncated? ==> (OpenFile(t) <==> OpenFile(s))
    ensures t.workers[i].stage.Truncated? ==> OpenFile(t)
    ensures !t.workers[i].stage.Counting? && Reading(t) ==> Reading(s)
  {
    if j :| 0 <= j < |s.workers| && s.workers[j].stage.Truncated? && j != i { assert t.workers[j].stage.Truncated?; }
    if j :| 0 <= j < |t.workers| && t.workers[j].stage.Truncated? && j != i { assert s.workers[j].stage.Truncated?; }
    if j :| 0 <= j < |t.workers| && t.workers[j].stage.Counting? && j != i { assert s.workers[j].stage.Counting?; }
  }

  /** The worker inside the single bump is the only one there. */
  lemma AloneInWindow(s: State, i: nat)
    requires Single(s) && i < |s.workers| && InWindow(s.workers[i])
    ensures s.workers[i].stage.Counting? ==> !OpenFile(s)
    ensures s.workers[i].stage.Truncated? ==> !Reading(s)
  {
    if j :| 0 <= j < |s.workers| && s.workers[j].stage.Truncated? { assert InWindow(s.workers[j]); }
    if j :| 0 <= j < |s.workers| && s.workers[j].stage.Counting? { assert InWindow(s.workers[j]); }
  }

  lemma CleanRead(s: State, i: nat, opens: nat)
    requires CountInv(s) && OpensMatch(s, opens) && Next(s, ReadCount(i)).Some? && Next(s, ReadCount(i)).value.clean
    ensures OpensMatch(Next(s, ReadCount(i)).value, opens)
  {
    var t := Next(s, ReadCount(i)).value;
    MoveCounts(s, i, Counting(Published(s) + 1));
    ReadingMoves(s, t, i);
    assert NoWindow(s);
  }

  lemma CleanOpen(s: State, i: nat, opens: nat)
    requires CountInv(s) && s.clean && OpensMatch(s, opens) && Next(s, OpenCount(i, true)).Some?
    ensures OpensMatch(Next(s, OpenCount(i, true)).value, opens + 1)
    ensures EmptiesCount(s, OpenCount(i, true)) <==> opens >= 1
  {
    var t := Next(s, OpenCount(i, true)).value;
    MoveCounts(s, i, t.workers[i].stage);
    AloneInWindow(s, i);
    assert Reading(s);
    ReadingMoves(s, t, i);
    OpenKeepsSingle(s, t, i);
    AloneInWindow(t, i);
  }

  lemma CleanWriteMatches(s: State, i: nat, opens: nat)
    requires CountInv(s) && s.clean && OpensMatch(s, opens) && Next(s, WriteCount(i, true)).Some?
    ensures OpensMatch(Next(s, WriteCount(i, true)).value, opens)
  {
    var t := Next(s, WriteCount(i, true)).value;
    MoveCounts(s, i, Cleaning);
    assert InWindow(s.workers[i]) && OpenFile(s);
    OthersOutside(s, t, i);
    AloneInWindow(s, i);
    ReadingMoves(s, t, i);
    if j :| 0 <= j < |t.workers| && t.workers[j].stage.Truncated? { assert InWindow(t.workers[j]); }
  }

  lemma OtherStepMatches(s: State, e: Event, opens: nat)
    requires OpensMatch(s, opens) && Next(s, e).Some?
    requires e.Fork? || e.WriteConfig? || e.Exit? || e.RemoveConfig? || e.Release?
    ensures OpensMatch(Next(s, e).value, opens)
  {
    var t := Next(s, e).value;
    MoveKeepsBumped(s, e);
    ReadingMoves(s, t, e.i);
  }

  lemma DispatchMatches(s: State, wid: Id, opens: nat)
    requires OpensMatch(s, opens)
    ensures OpensMatch(DispatchStep(s, wid), opens)
  {
    var t := DispatchStep(s, wid);
    if t != s {
      PastAppend(s.workers, Worker(wid, Claimed), 6);
      if j :| 0 <= j < |s.workers| && s.workers[j].stage.Truncated? { assert t.workers[j].stage.Truncated?; }
      if j :| 0 <= j < |t.workers| && t.workers[j].stage.Truncated? { assert s.workers[j].stage.Truncated?; }
      if j :| 0 <= j < |t.workers| && t.workers[j].stage.Counting? { assert s.workers[j].stage.Counting?; }
    }
  }

  lemma CleanStepMatches(s: State, e: Event, opens: nat)
    requires CountInv(s) && OpensMatch(s, opens) && Next(s, e).Some? && Next(s, e).value.clean
    ensures OpensMatch(Next(s, e).value, opens + (if e.OpenCount? && e.ok then 1 else 0))
    ensures EmptiesCount(s, e) <==> e.OpenCount? && e.ok && opens >= 1
  {
    match e
    case Arrive(_) =>
    case Dispatch(wid) => DispatchMatches(s, wid, opens);
    case ReadCount(i) => CleanRead(s, i, opens);
    case OpenCount(i, ok) => if ok { CleanOpen(s, i, opens); }
    case WriteCount(i, ok) => if ok { CleanWriteMatches(s, i, opens); }
    case _ => OtherStepMatches(s, e, opens);
  }

  /** An unclean history stays unclean. */
  lemma {:induction false} CleanSoFar(states: seq<State>, es: seq<Event>, k: nat, n: nat)
    requires Trace(states, es) && k <= n <= |es| && states[n].clean
    ensures states[k].clean
    decreases n - k
  {
    if k < n {
      TraceStep(states, es, n - 1);
      CleanSoFar(states, es, k, n - 1);
    }
  }

  lemma {:induction false} CleanOpensMatch(states: seq<State>, es: seq<Event>, n: nat)
    requires Trace(states, es) && Init(states[0]) && n <= |es| && states[n].clean
    ensures OpensMatch(states[n], Opens(es, n))
  {
    if n > 0 {
      CleanSoFar(states, es, n - 1, n);
      CleanOpensMatch(states, es, n - 1);
      TraceKeepsCountInv(states, es, n - 1);
      TraceStep(states, es, n - 1);
      CleanStepMatches(states[n - 1], es[n - 1], Opens(es, n - 1));
    }
  }

  lemma CleanStepEmpties(states: seq<State>, es: seq<Event>, k: nat)
    requires Trace(states, es) && Init(states[0]) && k < |es| && states[k + 1].clean
    ensures EmptiesCount(states[k], es[k]) <==> es[k].OpenCount? && es[k].ok && Opens(es, k) >= 1
  {
    CleanSoFar(states, es, k, k + 1);
    CleanOpensMatch(states, es, k);
    TraceKeepsCountInv(states, es, k);
    TraceStep(states, es, k);
    CleanStepMatches(states[k], es[k], Opens(es, k));
  }

  lemma NeverEmptiesStep(states: seq<State>, es: seq<Event>, n: nat)
    requires Trace(states, es) && n < |es|
    ensures NeverEmpties(states, es, n + 1) <==> NeverEmpties(states, es, n) && !EmptiesCount(states[n], es[n])
  {
  }

  lemma {:induction false} NeverEmptiesIff(states: seq<State>, es: seq<Event>, n: nat)
    requires Trace(states, es) && Init(states[0]) && n <= |es| && states[n].clean
    ensures NeverEmpties(states, es, n) <==> Opens(es, n) <= 1
  {
    if n > 0 {
      CleanSoFar(states, es, n - 1, n);
      NeverEmptiesIff(states, es, n - 1);
      CleanStepEmpties(states, es, n - 1);
      NeverEmptiesStep(states, es, n - 1);
    }
  }

  /** In a clean run, where no two bumps overlap, the published number never drops if and only if at most one bump
      opens the file: the second one makes it drop. */
  lemma CleanRunDropsIff(states: seq<State>, es: seq<Event>)
    requires Trace(states, es) && Init(states[0]) && states[|es|].clean
    ensures NeverDrops(states, |es|) <==> Opens(es, |es|) <= 1
  {
    PublishedNeverDropsIff(states, es);
    NeverEmptiesIff(states, es, |es|);
  }

  // ----- the numbers written

  predicate Writes(e: Event) {
    e.WriteCount? && e.ok
  }

  /** The number event `k` writes. */
  function NumberAt(states: seq<State>, es: seq<Event>, k: nat): nat
    requires Trace(states, es) && k < |es| && Writes(es[k])
  {
    states[k].workers[es[k].i].stage.next
  }

  /** The numbers the first `n` events write, in order. */
  function Written(states: seq<State>, es: seq<Event>, n: nat): seq<nat>
    requires Trace(states, es) && n <= |es|
  {
    if n == 0 then []
    else if Writes(es[n - 1]) then Written(states, es, n - 1) + [NumberAt(states, es, n - 1)]
    else Written(states, es, n - 1)
  }

  /** The number written last before event `n`. */
  function LastWritten(states: seq<State>, es: seq<Event>, n: nat): nat
    requires Trace(states, es) && n <= |es|
  {
    var ws := Written(states, es, n);
    if ws == [] then 0 else ws[|ws| - 1]
  }

  predicate Rises(ws: seq<nat>) {
    forall j, k | 0 <= j < k < |ws| :: ws[j] <= ws[k]
  }

  lemma RisesByOne(ws: seq<nat>, x: nat)
    ensures Rises(ws + [x]) <==> Rises(ws) && (ws != [] ==> ws[|ws| - 1] <= x)
  {
    var all := ws + [x];
    if Rises(all) {
      forall j, k | 0 <= j < k < |ws| ensures ws[j] <= ws[k] { assert all[j] <= all[k]; }
      if ws != [] { assert all[|ws| - 1] <= all[|ws|]; }
    }
  }

  /** Event `n` writes a number below the one written last. */
  predicate FallsAt(states: seq<State>, es: seq<Event>, n: nat)
    requires Trace(states, es) && n < |es|
  {
    Writes(es[n]) && NumberAt(states, es, n) < LastWritten(states, es, n)
  }

  lemma {:induction false} RisesIffNeverFalls(states: seq<State>, es: seq<Event>, n: nat)
    requires Trace(states, es) && n <= |es|
    ensures Rises(Written(states, es, n)) <==> forall k | 0 <= k < n :: !FallsAt(states, es, k)
  {
    if n > 0 {
      RisesIffNeverFalls(states, es, n - 1);
      if Writes(es[n - 1]) {
        var ws, x := Written(states, es, n - 1), NumberAt(states, es, n - 1);
        RisesByOne(ws, x);
        assert Written(states, es, n) == ws + [x];
        assert !FallsAt(states, es, n - 1) <==> (ws != [] ==> ws[|ws| - 1] <= x);
      } else {
        assert !FallsAt(states, es, n - 1);
      }
    }
  }

  // ----- from the read to the write

  /** Worker `i` has read the counter and carries `x`, or is through with its bump. */
  predicate Carries(s: State, i: nat, x: nat) {
    i < |s.workers| &&
    match s.workers[i].stage
    case Counting(next) => next == x
    case Truncated(next) => next == x
    case _ => Rank(s.workers[i].stage) >= 6
  }

  lemma StepCarries(s: State, e: Event, i: nat, x: nat)
    requires Carries(s, i, x) && Next(s, e).Some?
    ensures Carries(Next(s, e).value, i, x)
  {
  }

  lemma {:induction false} CarriesOn(states: seq<State>, es: seq<Event>, i: nat, x: nat, k: nat, n: nat)
    requires Trace(states, es) && k <= n <= |es| && Carries(states[k], i, x)
    ensures Carries(states[n], i, x)
    decreases n - k
  {
    if k < n {
      CarriesOn(states, es, i, x, k, n - 1);
      TraceStep(states, es, n - 1);
      StepCarries(states[n - 1], es[n - 1], i, x);
    }
  }

  /** What a worker writes is one more than what it read. */
  lemma WritesWhatItRead(states: seq<State>, es: seq<Event>, m: nat, n: nat)
    requires Trace(states, es) && m < n < |es|
    requires es[m].ReadCount? && es[n] == WriteCount(es[m].i, true)
    ensures NumberAt(states, es, n) == Published(states[m]) + 1
  {
    var i, x := es[m].i, Published(states[m]) + 1;
    TraceStep(states, es, m);
    CarriesOn(states, es, i, x, m + 1, n);
    TraceStep(states, es, n);
  }

  predicate InBump(s: State, i: nat) {
    i < |s.workers| && InWindow(s.workers[i])
  }

  /** Only a read brings a worker into its bump. */
  lemma EntersByReading(s: State, e: Event, i: nat)
    requires Next(s, e).Some? && InBump(Next(s, e).value, i) && !InBump(s, i)
    ensures e == ReadCount(i)
  {
  }

  /** A worker inside its bump has read the counter. */
  lemma {:induction false} HasRead(states: seq<State>, es: seq<Event>, i: nat, n: nat) returns (m: nat)
    requires Trace(states, es) && Init(states[0]) && n <= |es| && InBump(states[n], i)
    ensures m < n && es[m] == ReadCount(i)
  {
    TraceStep(states, es, n - 1);
    if InBump(states[n - 1], i) {
      m := HasRead(states, es, i, n - 1);
    } else {
      EntersByReading(states[n - 1], es[n - 1], i);
      m := n - 1;
    }
  }

  /** A worker reads the counter at `m` and writes at `n`; by then some number at least two above the one it read
      has been written last. */
  predicate Overtaken(states: seq<State>, es: seq<Event>, m: nat, n: nat)
    requires Trace(states, es) && m < |es| && n < |es|
  {
    && m < n && es[m].ReadCount? && es[n] == WriteCount(es[m].i, true)
    && LastWritten(states, es, n) >= Published(states[m]) + 2
  }

  lemma FallsIffOvertaken(states: seq<State>, es: seq<Event>, n: nat)
    requires Trace(states, es) && Init(states[0]) && n < |es|
    ensures FallsAt(states, es, n) <==> exists m | 0 <= m < n :: Overtaken(states, es, m, n)
  {
    if FallsAt(states, es, n) {
      TraceStep(states, es, n);
      var m := HasRead(states, es, es[n].i, n);
      WritesWhatItRead(states, es, m, n);
      assert Overtaken(states, es, m, n);
    }
    if m :| 0 <= m < n && Overtaken(states, es, m, n) {
      WritesWhatItRead(states, es, m, n);
    }
  }

  /** Over every run from a fresh start the numbers written go down if and only if some worker is overtaken: between
      its read and its write the number written last comes to exceed the one it read by at least two. */
  lemma WritesRiseIff(states: seq<State>, es: seq<Event>)
    requires Trace(states, es) && Init(states[0])
    ensures Rises(Written(states, es, |es|))
       <==> !exists m, n | 0 <= m < |es| && 0 <= n < |es| :: Overtaken(states, es, m, n)
  {
    RisesIffNeverFalls(states, es, |es|);
    if m, n :| 0 <= m < |es| && 0 <= n < |es| && Overtaken(states, es, m, n) {
      FallsIffOvertaken(states, es, n);
      assert FallsAt(states, es, n);
    } else if !Rises(Written(states, es, |es|)) {
      FindsOvertaken(states, es);
    }
  }

  lemma FindsOvertaken(states: seq<State>, es: seq<Event>)
    requires Trace(states, es) && Init(states[0]) && !Rises(Written(states, es, |es|))
    ensures exists m, n | 0 <= m < |es| && 0 <= n < |es| :: Overtaken(states, es, m, n)
  {
    RisesIffNeverFalls(states, es, |es|);
    var n :| 0 <= n < |es| && FallsAt(states, es, n);
    FallsIffOvertaken(states, es, n);
    var m :| 0 <= m < n && Overtaken(states, es, m, n);
  }

  // ----- the numbers written in a clean run

  /** A write of a clean history finishes one bump with the next number ... */
  lemma CleanWrite(s: State, i: nat)
    requires CountInv(s) && s.clean && Next(s, WriteCount(i, true)).Some?
    ensures Bumped(Next(s, WriteCount(i, true)).value) == Bumped(s) + 1
    ensures s.workers[i].stage.next == Bumped(s) + 1
  {
    MoveCounts(s, i, Cleaning);
    assert InWindow(s.workers[i]);
  }

  /** ... and no other clean step finishes one. */
  lemma OtherCleanStep(s: State, e: Event)
    requires Next(s, e).Some? && Next(s, e).value.clean && !Writes(e)
    ensures Bumped(Next(s, e).value) == Bumped(s)
  {
    match e
    case Arrive(_) =>
    case Dispatch(wid) =>
      if DispatchStep(s, wid) != s { PastAppend(s.workers, Worker(wid, Claimed), 6); }
    case WriteCount(_, _) =>
    case ReadCount(i) => MoveCounts(s, i, Counting(Published(s) + 1));
    case OpenCount(i, _) => MoveCounts(s, i, Truncated(s.workers[i].stage.next));
    case _ => MoveKeepsBumped(s, e);
  }

  lemma MoveKeepsBumped(s: State, e: Event)
    requires Next(s, e).Some? && (e.Fork? || e.WriteConfig? || e.Exit? || e.RemoveConfig? || e.Release?)
    ensures Bumped(Next(s, e).value) == Bumped(s)
  {
    MoveCounts(s, e.i, Next(s, e).value.workers[e.i].stage);
  }

  /** In a clean run the writes publish 1, 2, 3 and so on, one for each finished bump. */
  lemma {:induction false} CleanWritesCountUp(states: seq<State>, es: seq<Event>, n: nat)
    requires Trace(states, es) && Init(states[0]) && n <= |es| && states[n].clean
    ensures |Written(states, es, n)| == Bumped(states[n])
    ensures forall k | 0 <= k < |Written(states, es, n)| :: Written(states, es, n)[k] == k + 1
  {
    if n > 0 {
      CleanSoFar(states, es, n - 1, n);
      CleanWritesCountUp(states, es, n - 1);
      TraceKeepsCountInv(states, es, n - 1);
      TraceStep(states, es, n - 1);
      if Writes(es[n - 1]) {
        CleanWrite(states[n - 1], es[n - 1].i);
      } else {
        OtherCleanStep(states[n - 1], es[n - 1]);
      }
    }
  }
}
