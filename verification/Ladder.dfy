/** The tracker repair ladder: bootstrap, create an absent repo, seed an empty remote, heal an old
    schema, and go on whatever happens. */
module Ladder {
  import opened Basics
  import opened Text
  import opened IssueGuard
  import opened BeadsScripts

  // ----- failure messages

  predicate IsEmptyRemoteFailure(message: string) {
    var text := Lower(message);
    || Contains(text, "git remote has no branches")
    || (Contains(text, "no branches") && Contains(text, "initialize"))
    || Contains(text, "contains no dolt data")
  }

  predicate IsSchemaSkewRefusal(message: string) {
    var text := Lower(message);
    if IsEmptyRemoteFailure(message) then false
    else if Contains(text, "#4259") then true
    else
      && (Contains(text, "migration") || Contains(text, "migrate") || Contains(text, "schema"))
      && (Contains(text, "remote-backed") || Contains(text, "remote backed"))
      && (Contains(text, "will not") || Contains(text, "won't") || Contains(text, "wont") || Contains(text, "refus")
          || Contains(text, "not auto-apply") || Contains(text, "cannot auto-apply") || Contains(text, "can't auto-apply"))
  }

  predicate IsRepoNotFound(message: string) {
    Contains(Lower(message), "repository not found")
  }

  datatype ExecResult = ExecResult(returncode: int, stderr: string, stdout: string) {
    /** `stderr or stdout or ""` */
    function Message(): string {
      if stderr != "" then stderr else stdout
    }
  }

  // ----- the state of the tracker

  /** The repo exists, the remote has Dolt data, and the DB opens at the current schema. */
  datatype World = World(repo: bool, seeded: bool, current: bool)

  /** The bootstrap result tells the truth about the state it leaves: a zero exit opened the DB, and otherwise the
      message names the first thing missing. */
  predicate Truthful(w: World, r: ExecResult) {
    if r.returncode == 0 then w.current
    else if !w.repo then IsRepoNotFound(r.Message())
    else if !w.seeded then IsEmptyRemoteFailure(r.Message())
    else !w.current && IsSchemaSkewRefusal(r.Message())
  }

  datatype Action =
    | Boot(seen: World, result: ExecResult)
    | Create(result: ExecResult)
    | Seed(exit: int)
    | Heal(exit: int)

  /** Every repair that was tried exited zero. */
  predicate RepairsWorked(log: seq<Action>) {
    forall a | a in log ::
      && (a.Create? ==> a.result.returncode == 0)
      && (a.Seed? ==> a.exit == 0)
      && (a.Heal? ==> a.exit == 0)
  }

  predicate BootsTruthful(log: seq<Action>) {
    forall a | a in log && a.Boot? :: Truthful(a.seen, a.result)
  }

  /** One `bd bootstrap`: its result, the issues it imports, and whether the DB opens at the current schema
      afterwards. */
  datatype BootEnv = BootEnv(result: ExecResult, gained: Option<set<string>>, opens: bool)

  /** The results the outside world gives to the ladder's commands. */
  datatype LadderEnv = LadderEnv(
    boots: seq<BootEnv>, create: ExecResult, seed: SeedEnv, shopType: string, heal: HealEnv)

  predicate WellFormed(env: LadderEnv) {
    |env.boots| == 3
  }

  /** A bootstrap may import issues into the working set, or leave a partial one, but drops none. */
  function Gained(db: Option<set<string>>, more: Option<set<string>>): Option<set<string>> {
    if more.None? then db else Some(more.value + (if db.Some? then db.value else {}))
  }

  // ----- when a repair is called for, and what it does

  predicate NeedsRepo(r: ExecResult) {
    r.returncode != 0 && IsRepoNotFound(r.Message())
  }

  predicate NeedsSeed(r: ExecResult) {
    r.returncode != 0 && IsEmptyRemoteFailure(r.Message())
  }

  predicate NeedsHeal(r: ExecResult) {
    r.returncode != 0 && IsSchemaSkewRefusal(r.Message())
  }

  /** A creation and, when it worked, one more bootstrap. */
  ghost predicate Creates(env: LadderEnv, before: World, done: seq<Action>, after: World)
    requires WellFormed(env)
  {
    if env.create.returncode != 0 then done == [Create(env.create)] && after == before
    else done == [Create(env.create), Boot(after, env.boots[1].result)] && after.repo
  }

  /** A seed and, when it worked, one more bootstrap. */
  ghost predicate Seeds(env: LadderEnv, before: World, done: seq<Action>, after: World)
    requires WellFormed(env)
  {
    && after.repo == before.repo
    && ((|done| == 1 && done[0].Seed? && done[0].exit != 0)
        || (done == [Seed(0), Boot(after, env.boots[2].result)] && after.seeded))
  }

  /** A heal; a zero exit has opened the DB at the current schema. */
  ghost predicate Heals(done: seq<Action>, after: World) {
    |done| == 1 && done[0].Heal? && (done[0].exit == 0 ==> after.current)
  }

  /** One whole run of the ladder: what each stage logged, the states in between, and how it ended. */
  datatype Run = Run(booted: World, creation: seq<Action>, created: World, seeding: seq<Action>, seeded: World,
                     healing: seq<Action>, healed: World, final: ExecResult)

  function Retried(r: ExecResult, done: seq<Action>, again: ExecResult): ExecResult {
    if |done| == 2 then again else r
  }

  function AfterCreation(env: LadderEnv, run: Run): ExecResult
    requires WellFormed(env)
  {
    Retried(env.boots[0].result, run.creation, env.boots[1].result)
  }

  function AfterSeeding(env: LadderEnv, run: Run): ExecResult
    requires WellFormed(env)
  {
    Retried(AfterCreation(env, run), run.seeding, env.boots[2].result)
  }

  /** Each repair is tried exactly when the latest bootstrap asks for it, and otherwise nothing changes. */
  ghost predicate Follows(env: LadderEnv, run: Run)
    requires WellFormed(env)
  {
    && (if NeedsRepo(env.boots[0].result) then Creates(env, run.booted, run.creation, run.created)
        else run.creation == [] && run.created == run.booted)
    && (if NeedsSeed(AfterCreation(env, run)) then Seeds(env, run.created, run.seeding, run.seeded)
        else run.seeding == [] && run.seeded == run.created)
    && (if NeedsHeal(AfterSeeding(env, run)) then Heals(run.healing, run.healed)
        else run.healing == [] && run.healed == run.seeded)
    && run.final.returncode == (if run.healing != [] && run.healing[0] == Heal(0) then 0 else AfterSeeding(env, run).returncode)
  }

  function LogOf(env: LadderEnv, run: Run): seq<Action>
    requires WellFormed(env)
  {
    [Boot(run.booted, env.boots[0].result)] + run.creation + run.seeding + run.healing
  }

  /** The export of a heal covers the DB it is about to destroy. */
  predicate Covers(env: HealEnv, db: Option<set<string>>) {
    db.Some? ==> env.exportOk && (Parses(env.exportLines) ==> IssueIds(env.exportLines) == db.value)
  }

  /** The DB a run without a seed hands to the heal. */
  function HandedToHeal(env: LadderEnv, db: Option<set<string>>, run: Run): Option<set<string>>
    requires WellFormed(env)
  {
    var first := Gained(db, env.boots[0].gained);
    if |run.creation| == 2 then Gained(first, env.boots[1].gained) else first
  }

  class Provisioner {
    const space: Workspace
    var repo: bool
    var log: seq<Action>

    constructor (space: Workspace, repo: bool)
      ensures this.space == space && this.repo == repo && log == []
    {
      this.space, this.repo, log := space, repo, [];
    }

    function State(): World
      reads this, space
    {
      World(repo, space.remote.Some?, space.current)
    }

    method Note(a: Action)
      modifies this`log
      ensures log == old(log) + [a]
    {
      log := log + [a];
    }

    /** `bd bootstrap` */
    method Bootstrap(b: BootEnv)
      modifies this`log, space
      ensures log == old(log) + [Boot(State(), b.result)]
      ensures space.db == Gained(old(space.db), b.gained) && space.current == b.opens
      ensures space.jsonl == old(space.jsonl) && space.config == old(space.config) && space.remote == old(space.remote)
      ensures old(space.Issues()) <= space.Issues()
    {
      if b.gained.Some? {
        space.db := Some(b.gained.value + (if space.db.Some? then space.db.value else {}));
      }
      space.current := b.opens;
      Note(Boot(State(), b.result));
    }

    /** The repo does not exist: create it and retry. */
    method CreateStage(r: ExecResult, env: LadderEnv) returns (final: ExecResult, ghost done: seq<Action>)
      requires WellFormed(env)
      modifies this, space
      ensures log == old(log) + done
      ensures if NeedsRepo(r) then Creates(env, old(State()), done, State()) else done == [] && State() == old(State())
      // stderr speaks when it is not empty, otherwise stdout
      ensures done != [] <==>
                r.returncode != 0 && Contains(Lower(if r.stderr != "" then r.stderr else r.stdout), "repository not found")
      ensures final == Retried(r, done, env.boots[1].result)
      ensures space.db == if |done| == 2 then Gained(old(space.db), env.boots[1].gained) else old(space.db)
      ensures space.jsonl == old(space.jsonl) && space.config == old(space.config) && space.remote == old(space.remote)
      ensures old(space.Issues()) <= space.Issues()
    {
      final, done := r, [];
      if final.returncode != 0 && IsRepoNotFound(final.Message()) {
        Note(Create(env.create));
        done := [Create(env.create)];
        if env.create.returncode == 0 {
          repo := true;
          Bootstrap(env.boots[1]);
          final := env.boots[1].result;
          done := [Create(env.create), Boot(State(), final)];
        }
      }
    }

    /** The remote has no Dolt data: seed it and retry. */
    method SeedStage(r: ExecResult, env: LadderEnv) returns (final: ExecResult, ghost done: seq<Action>)
      requires WellFormed(env)
      modifies this, space
      ensures log == old(log) + done
      ensures if NeedsSeed(r) then Seeds(env, old(State()), done, State()) else done == [] && State() == old(State())
      ensures done != [] <==>
                r.returncode != 0 && IsEmptyRemoteFailure(if r.stderr != "" then r.stderr else r.stdout)
      ensures final == Retried(r, done, env.boots[2].result)
      ensures done == [] ==> space.Snap() == old(space.Snap()) && space.Issues() == old(space.Issues())
      ensures space.jsonl == old(space.jsonl)
    {
      final, done := r, [];
      if final.returncode != 0 && IsEmptyRemoteFailure(final.Message()) {
        var seeded := space.EmptyRemoteSeed(env.seed);
        Note(Seed(seeded));
        done := [Seed(seeded)];
        if seeded == 0 {
          Bootstrap(env.boots[2]);
          final := env.boots[2].result;
          done := [Seed(seeded), Boot(State(), final)];
        }
      }
    }

    /** The schema is behind: heal, and take the heal as the result. */
    method HealStage(r: ExecResult, env: LadderEnv) returns (final: ExecResult, ghost done: seq<Action>)
      modifies this, space
      ensures log == old(log) + done
      ensures if NeedsHeal(r) then Heals(done, State()) else done == [] && State() == old(State())
      ensures done != [] <==>
                r.returncode != 0 && IsSchemaSkewRefusal(if r.stderr != "" then r.stderr else r.stdout)
      ensures final.returncode == if done != [] && done[0] == Heal(0) then 0 else r.returncode
      ensures done == [] ==> space.Snap() == old(space.Snap()) && space.Issues() == old(space.Issues())
      ensures space.jsonl == old(space.jsonl)
      ensures Covers(env.heal, old(space.db)) ==> old(space.Issues()) <= space.Issues()
    {
      final, done := r, [];
      if final.returncode != 0 && IsSchemaSkewRefusal(final.Message()) {
        var healed := space.SchemaSkewHeal(env.shopType, env.heal);
        Note(Heal(healed));
        done := [Heal(healed)];
        if healed == 0 { final := ExecResult(0, "", ""); }
      }
    }

    /** `_provision_beads_tracker` */
    method Provision(env: LadderEnv) returns (final: ExecResult, ghost run: Run)
      requires WellFormed(env) && log == []
      modifies this, space
      ensures Follows(env, run) && log == LogOf(env, run)
      ensures run.final == final && run.healed == State()
      ensures run.creation != [] <==>
                var r := env.boots[0].result;
                r.returncode != 0 && Contains(Lower(if r.stderr != "" then r.stderr else r.stdout), "repository not found")
      // truthful bootstraps and working repairs end well
      ensures BootsTruthful(log) && RepairsWorked(log) ==> final.returncode == 0 && space.current
      // only a seed or a heal can touch config and remote, or lose an issue
      ensures run.seeding == [] && run.healing == [] ==>
                space.config == old(space.config) && space.remote == old(space.remote) && old(space.Issues()) <= space.Issues()
      // a heal whose export covers its DB loses none either
      ensures run.seeding == [] && Covers(env.heal, HandedToHeal(env, old(space.db), run)) ==>
                old(space.Issues()) <= space.Issues()
      ensures space.jsonl == old(space.jsonl)
    {
      ghost var c, s, h;
      Bootstrap(env.boots[0]);
      assert log == [Boot(State(), env.boots[0].result)];
      ghost var booted := State();
      final, c := CreateStage(env.boots[0].result, env);
      ghost var created := State();
      final, s := SeedStage(final, env);
      ghost var seeded := State();
      final, h := HealStage(final, env);
      run := Run(booted, c, created, s, seeded, h, State(), final);
      if BootsTruthful(log) && RepairsWorked(log) { LadderEndsWell(env, run); }
    }
  }

  // ----- what holds of every run

  /** A seed and a heal never answer the same message: between them lies the bootstrap that follows a
      working seed. */
  lemma NeverSeedAndHealOneMessage(env: LadderEnv, run: Run)
    requires WellFormed(env) && Follows(env, run)
    ensures run.seeding != [] && run.healing != [] ==> run.seeding[0] == Seed(0) && NeedsHeal(env.boots[2].result)
  {
  }

  function BootCount(log: seq<Action>): nat {
    if log == [] then 0 else (if log[0].Boot? then 1 else 0) + BootCount(log[1..])
  }

  lemma {:induction false} BootCountAppend(a: seq<Action>, b: seq<Action>)
    ensures BootCount(a + b) == BootCount(a) + BootCount(b)
    decreases |a|
  {
    if a == [] {
      assert a + b == b;
    } else {
      assert (a + b)[0] == a[0] && (a + b)[1..] == a[1..] + b;
      BootCountAppend(a[1..], b);
    }
  }

  lemma StageBoots(done: seq<Action>)
    requires done == [] || (|done| == 1 && !done[0].Boot?) || (|done| == 2 && !done[0].Boot? && done[1].Boot?)
    ensures BootCount(done) == |done| / 2
  {
    if |done| == 2 { assert done[1..][0] == done[1] && done[1..][1..] == []; }
  }

  /** Every run bootstraps at most three times, once more than the creations and seeds that worked. */
  lemma AtMostThreeBoots(env: LadderEnv, run: Run)
    requires WellFormed(env) && Follows(env, run)
    ensures 1 <= BootCount(LogOf(env, run)) <= 3
    ensures BootCount(LogOf(env, run)) == 1 + |run.creation| / 2 + |run.seeding| / 2
  {
    var first := [Boot(run.booted, env.boots[0].result)];
    StageBoots(run.creation);
    StageBoots(run.seeding);
    StageBoots(run.healing);
    assert BootCount(first) == 1 by { assert first[1..] == []; }
    BootCountAppend(first, run.creation);
    BootCountAppend(first + run.creation, run.seeding);
    BootCountAppend(first + run.creation + run.seeding, run.healing);
  }

  // ----- truthful bootstraps and working repairs end well

  /** After the first stage a failing result is not for want of a repo. */
  lemma CreationHelps(env: LadderEnv, before: World, r: ExecResult, done: seq<Action>, after: World)
    requires WellFormed(env) && Truthful(before, r)
    requires if NeedsRepo(r) then Creates(env, before, done, after) else done == [] && after == before
    requires BootsTruthful(done) && RepairsWorked(done)
    ensures var final := Retried(r, done, env.boots[1].result);
            Truthful(after, final) && (final.returncode != 0 ==> after.repo)
  {
    if NeedsRepo(r) { assert done[0] in done && (|done| == 2 ==> done[1] in done); }
  }

  /** After the second stage it is not for want of Dolt data either: the seed has pushed some. */
  lemma SeedingHelps(env: LadderEnv, before: World, r: ExecResult, done: seq<Action>, after: World)
    requires WellFormed(env) && Truthful(before, r) && (r.returncode != 0 ==> before.repo)
    requires if NeedsSeed(r) then Seeds(env, before, done, after) else done == [] && after == before
    requires BootsTruthful(done) && RepairsWorked(done)
    ensures var final := Retried(r, done, env.boots[2].result);
            Truthful(after, final) && (final.returncode != 0 ==> after.repo && after.seeded)
  {
    if NeedsSeed(r) { assert done[0] in done && (|done| == 2 ==> done[1] in done); }
  }

  /** What is left is the old schema, which the heal cures. */
  lemma HealingHelps(before: World, r: ExecResult, done: seq<Action>, after: World)
    requires Truthful(before, r) && (r.returncode != 0 ==> before.repo && before.seeded)
    requires if NeedsHeal(r) then Heals(done, after) else done == [] && after == before
    requires RepairsWorked(done)
    ensures after.current && (r.returncode == 0 || (done != [] && done[0] == Heal(0)))
  {
    if NeedsHeal(r) { assert done[0] in done; }
  }

  /** When every bootstrap reports the tracker truthfully and every repair that was tried exited zero, the ladder
      ends with a zero result and a DB that opens at the current schema. */
  lemma LadderEndsWell(env: LadderEnv, run: Run)
    requires WellFormed(env) && Follows(env, run)
    requires BootsTruthful(LogOf(env, run)) && RepairsWorked(LogOf(env, run))
    ensures run.final.returncode == 0 && run.healed.current
  {
    var log := LogOf(env, run);
    assert log[0] == Boot(run.booted, env.boots[0].result);
    assert forall a | a in run.creation || a in run.seeding || a in run.healing :: a in log;
    CreationHelps(env, run.booted, env.boots[0].result, run.creation, run.created);
    SeedingHelps(env, run.created, AfterCreation(env, run), run.seeding, run.seeded);
    HealingHelps(run.seeded, AfterSeeding(env, run), run.healing, run.healed);
  }

  // ----- every state has a result that reports it

  lemma NotAnEmptyRemote(message: string)
    requires 'n' !in Lower(message)
    ensures !IsEmptyRemoteFailure(message)
  {
    AbsentChar(Lower(message), "git remote has no branches", 15);
    AbsentChar(Lower(message), "no branches", 0);
    AbsentChar(Lower(message), "contains no dolt data", 2);
  }

  lemma MessageItself(message: string)
    requires Lower(message) == message
    ensures Contains(Lower(message), message)
  {
    ContainsItself(message);
  }

  /** So truthful bootstraps exist for every state of the tracker. */
  lemma EveryStateIsReportable(w: World)
    ensures exists r :: Truthful(w, r)
  {
    if w.current {
      assert Truthful(w, ExecResult(0, "", ""));
    } else if !w.repo {
      MessageItself("repository not found");
      assert Truthful(w, ExecResult(1, "repository not found", ""));
    } else if !w.seeded {
      MessageItself("contains no dolt data");
      assert Truthful(w, ExecResult(1, "contains no dolt data", ""));
    } else {
      MessageItself("#4259");
      NotAnEmptyRemote("#4259");
      assert Truthful(w, ExecResult(1, "#4259", ""));
    }
  }
}
