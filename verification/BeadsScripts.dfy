/** The in-container beads workspace and the two scripts that rebuild it: the schema-skew heal and the
    empty-remote seed.  Both run under `set -e`: an unprotected command that fails ends the script there. */
module BeadsScripts {
  import opened Basics
  import opened IssueGuard

  // ----- config.yaml lines

  /** `^sync\.remote:` */
  predicate HealRemoteLine(line: string) {
    "sync.remote:" <= line
  }

  /** `^sync\.remote` */
  predicate SeedRemoteLine(line: string) {
    "sync.remote" <= line
  }

  /** The lines that do not match. */
  function Without(lines: seq<string>, matches: string -> bool): seq<string> {
    if lines == [] then []
    else (if matches(lines[0]) then [] else [lines[0]]) + Without(lines[1..], matches)
  }

  /** The lines that match. */
  function Matching(lines: seq<string>, matches: string -> bool): seq<string> {
    if lines == [] then []
    else (if matches(lines[0]) then [lines[0]] else []) + Matching(lines[1..], matches)
  }

  lemma {:induction false} WithoutHasNone(lines: seq<string>, matches: string -> bool)
    ensures forall l | l in Without(lines, matches) :: !matches(l) && l in lines
    ensures Without(lines, matches) == lines <==> forall l | l in lines :: !matches(l)
    ensures |Without(lines, matches)| <= |lines|
  {
    if lines != [] {
      WithoutHasNone(lines[1..], matches);
      assert lines == [lines[0]] + lines[1..];
      if matches(lines[0]) { assert |Without(lines, matches)| < |lines|; }
    }
  }

  lemma {:induction false} SplitMultiset(lines: seq<string>, matches: string -> bool)
    ensures multiset(lines) == multiset(Without(lines, matches)) + multiset(Matching(lines, matches))
  {
    if lines != [] {
      SplitMultiset(lines[1..], matches);
      assert lines == [lines[0]] + lines[1..];
    }
  }

  lemma {:induction false} FilterAppend(a: seq<string>, b: seq<string>, matches: string -> bool)
    ensures Without(a + b, matches) == Without(a, matches) + Without(b, matches)
    ensures Matching(a + b, matches) == Matching(a, matches) + Matching(b, matches)
    decreases |a|
  {
    if a == [] {
      assert a + b == b;
    } else {
      assert (a + b)[0] == a[0] && (a + b)[1..] == a[1..] + b;
      FilterAppend(a[1..], b, matches);
      var kept, taken := if matches(a[0]) then [] else [a[0]], if matches(a[0]) then [a[0]] else [];
      assert kept + (Without(a[1..], matches) + Without(b, matches)) == kept + Without(a[1..], matches) + Without(b, matches);
      assert taken + (Matching(a[1..], matches) + Matching(b, matches)) == taken + Matching(a[1..], matches) + Matching(b, matches);
    }
  }

  lemma {:induction false} NothingMatches(lines: seq<string>, matches: string -> bool)
    requires forall l | l in lines :: !matches(l)
    ensures Without(lines, matches) == lines && Matching(lines, matches) == []
  {
    if lines != [] {
      NothingMatches(lines[1..], matches);
      assert lines == [lines[0]] + lines[1..];
    }
  }

  /** The lines around the first match, in order. */
  lemma FirstMatch(front: seq<string>, line: string, back: seq<string>, matches: string -> bool)
    requires matches(line) && forall l | l in front :: !matches(l)
    ensures Without(front + [line] + back, matches) == front + Without(back, matches)
    ensures Matching(front + [line] + back, matches) == [line] + Matching(back, matches)
  {
    FilterAppend(front + [line], back, matches);
    FilterAppend(front, [line], matches);
    NothingMatches(front, matches);
    assert Without([line], matches) == [] && Matching([line], matches) == [line] by { assert [line][1..] == []; }
    assert front + [] == front && [] + [line] == [line];
  }

  /** The file configures a sync remote. */
  predicate ConfiguresRemote(config: Option<seq<string>>, matches: string -> bool) {
    config.Some? && exists l | l in config.value :: matches(l)
  }

  // ----- outcomes of the commands the scripts run

  /** What each command of the heal does.  The `...Left` fields are what a failing command leaves behind. */
  datatype HealEnv = HealEnv(
    cdOk: bool,
    exportOk: bool, exportLines: seq<Line>,
    rmOk: bool, dbLeft: Option<set<string>>,
    cpOk: bool, backupLeft: Option<seq<string>>,
    grepOk: bool, configLeft: Option<seq<string>>,
    initOk: bool, initLeft: Option<set<string>>,
    mvOk: bool,
    pushOk: bool)

  datatype SeedEnv = SeedEnv(
    cdOk: bool, gitOk: bool,
    sedOk: bool,
    rmOk: bool, dbLeft: Option<set<string>>,
    initOk: bool, initLeft: Option<set<string>>,
    pushOk: bool, lsOk: bool)

  datatype Snapshot = Snapshot(
    db: Option<set<string>>, current: bool, jsonl: Option<seq<Line>>, config: Option<seq<string>>,
    backup: Option<seq<string>>, capture: Option<seq<Line>>, remote: Option<set<string>>)

  /** What the strip leaves of config.yaml. */
  function Stripped(config: Option<seq<string>>, env: HealEnv): Option<seq<string>> {
    if config.None? then None
    else if env.grepOk then Some(Without(config.value, HealRemoteLine))
    else env.configLeft
  }

  /** The heal gets past its refusals: outside a lead shop, with no export or a lossless one. */
  predicate HealProceeds(before: Snapshot, shopType: string, env: HealEnv) {
    && env.cdOk && !before.current && shopType != "lead"
    && (env.exportOk && before.db.Some? ==> Lossless(Some(env.exportLines), before.jsonl))
  }

  /** The rebuild gets as far as `bd init`. */
  predicate ReachesInit(before: Snapshot, env: HealEnv) {
    env.rmOk && (before.config.Some? ==> env.cpOk)
  }

  /** `bd init --from-jsonl` succeeds: the file loads, and no configured remote has Dolt history. */
  predicate InitWorks(before: Snapshot, env: HealEnv) {
    && env.initOk && before.jsonl.Some? && Parses(before.jsonl.value)
    && !(ConfiguresRemote(Stripped(before.config, env), HealRemoteLine) && before.remote.Some?)
  }

  /** The rebuild gets past `bd init` but cannot put the config back. */
  predicate MoveFails(before: Snapshot, env: HealEnv) {
    ReachesInit(before, env) && InitWorks(before, env) && (before.config.Some? || before.backup.Some?) && !env.mvOk
  }

  /** config.yaml after a rebuild: stripped at every stop behind the strip, and restored otherwise. */
  function RebuiltConfig(before: Snapshot, env: HealEnv): Option<seq<string>> {
    if !ReachesInit(before, env) then before.config
    else if !RebuildWorks(before, env) then Stripped(before.config, env)
    else if before.config.Some? then before.config
    else before.backup
  }

  /** The DB after a rebuild: what a failing command leaves, or the committed issues. */
  function RebuiltDb(before: Snapshot, env: HealEnv): Option<set<string>> {
    if !env.rmOk then env.dbLeft
    else if before.config.Some? && !env.cpOk then None
    else if !InitWorks(before, env) then env.initLeft
    else if before.jsonl.Some? then Some(IssueIds(before.jsonl.value))
    else Some({})
  }

  /** The backup of config.yaml after a rebuild: none when it has been put back. */
  function RebuiltBackup(before: Snapshot, env: HealEnv): Option<seq<string>> {
    if !env.rmOk then before.backup
    else if before.config.Some? && !env.cpOk then env.backupLeft
    else if RebuildWorks(before, env) then None
    else if before.config.Some? then before.config
    else before.backup
  }

  /** The workspace when the config could not be put back. */
  function AfterFailedMove(before: Snapshot, env: HealEnv): Snapshot {
    before.(db := Some(if before.jsonl.Some? then IssueIds(before.jsonl.value) else {}), current := true,
            config := Stripped(before.config, env),
            backup := if before.config.Some? then before.config else before.backup)
  }

  /** Every command the rebuild depends on works. */
  predicate RebuildWorks(before: Snapshot, env: HealEnv) {
    && ReachesInit(before, env) && InitWorks(before, env)
    && (before.config.Some? || before.backup.Some? ==> env.mvOk)
  }

  class Workspace {
    var db: Option<set<string>>          // issue ids of the embedded Dolt DB; none when there is no DB
    var current: bool                    // the DB opens at the current schema: `bd ready` exits zero
    var jsonl: Option<seq<Line>>         // the committed .beads/issues.jsonl
    var config: Option<seq<string>>      // .beads/config.yaml
    var backup: Option<seq<string>>      // .beads/config.yaml.heal-bak
    var capture: Option<seq<Line>>       // .beads/pre-heal-export.jsonl
    var remote: Option<set<string>>      // issue ids of the Dolt remote; none when it has no Dolt data
    ghost var configAtInit: seq<Option<seq<string>>>   // config.yaml at each `bd init` so far

    constructor (db: Option<set<string>>, current: bool, jsonl: Option<seq<Line>>, config: Option<seq<string>>,
                 remote: Option<set<string>>)
      ensures Snap() == Snapshot(db, current, jsonl, config, None, None, remote) && configAtInit == []
    {
      this.db, this.current, this.jsonl, this.config, this.remote := db, current, jsonl, config, remote;
      backup, capture, configAtInit := None, None, [];
    }

    function Snap(): Snapshot
      reads this
    {
      Snapshot(db, current, jsonl, config, backup, capture, remote)
    }

    /** The committed issue ids. */
    function Committed(): set<string>
      reads this
    {
      if jsonl.Some? then IssueIds(jsonl.value) else {}
    }

    /** The ids of the issues that survive in the live DB or in the committed file. */
    function Issues(): set<string>
      reads this
    {
      (if db.Some? then db.value else {}) + Committed()
    }

    /** A successful export that parses is exact. */
    predicate ExactExport(env: HealEnv)
      reads this
    {
      env.exportOk && db.Some? && Parses(env.exportLines) ==> IssueIds(env.exportLines) == db.value
    }

    /** `bd init --from-jsonl` can succeed: the file loads, and no configured remote has Dolt history. */
    predicate Loadable()
      reads this
    {
      jsonl.Some? && Parses(jsonl.value) && !(ConfiguresRemote(config, HealRemoteLine) && remote.Some?)
    }

    /** The heal exits zero exactly when there is nothing to do, or it proceeds and every command it depends
        on works. */
    predicate HealSucceeds(shopType: string, env: HealEnv)
      reads this
    {
      env.cdOk && (current || (HealProceeds(Snap(), shopType, env) && RebuildWorks(Snap(), env)))
    }

    /** Steps 3 to 5 of the heal: destroy the old DB, rebuild from the committed file with the remote
        line out of the way, put the line back and reseed. */
    method Rebuild(env: HealEnv) returns (exit: int)
      requires !current
      modifies this
      ensures exit == if RebuildWorks(old(Snap()), env) then 0 else 1
      ensures jsonl == old(jsonl) && capture == old(capture)
      ensures exit == 0 ==> db == Some(Committed()) && jsonl.Some? && backup == None
      ensures current <==> ReachesInit(old(Snap()), env) && InitWorks(old(Snap()), env)
      ensures config == RebuiltConfig(old(Snap()), env)
      ensures db == RebuiltDb(old(Snap()), env) && backup == RebuiltBackup(old(Snap()), env)
      ensures remote == if exit == 0 && env.pushOk then db else old(remote)
      ensures configAtInit == old(configAtInit) + (if ReachesInit(old(Snap()), env) then [Stripped(old(config), env)] else [])
      // a stop at `bd init` leaves the original config only in the backup
      ensures ReachesInit(old(Snap()), env) && !InitWorks(old(Snap()), env) ==>
                Snap() == AfterFailedInit(old(Snap()), env)
      // ... and so does a failing restore
      ensures MoveFails(old(Snap()), env) ==> Snap() == AfterFailedMove(old(Snap()), env)
    {
      // (3) destroy
      if !env.rmOk {
        db := env.dbLeft;
        return 1;
      }
      db := None;
      // (3a) strip sync.remote
      if config.Some? {
        if !env.cpOk {
          backup := env.backupLeft;
          return 1;
        }
        backup := config;
        config := if env.grepOk then Some(Without(backup.value, HealRemoteLine)) else env.configLeft;
      }
      // (4) rebuild
      configAtInit := configAtInit + [config];
      if !(env.initOk && Loadable()) {
        db := env.initLeft;
        return 1;
      }
      db, current := Some(Committed()), true;
      // (4a) restore sync.remote
      if backup.Some? {
        if !env.mvOk { return 1; }
        config, backup := backup, None;
      }
      // (5) reseed
      if env.pushOk { remote := db; }
      exit := 0;
    }

    /** The schema-skew heal script. */
    method SchemaSkewHeal(shopType: string, env: HealEnv) returns (exit: int)
      modifies this
      // exactly when the exit is zero
      ensures exit == if old(HealSucceeds(shopType, env)) then 0 else 1
      ensures jsonl == old(jsonl)
      // a healthy tracker and a lead's tracker are left alone
      ensures old(current) || shopType == "lead" || !env.cdOk ==> Snap() == old(Snap()) && configAtInit == old(configAtInit)
      ensures old(current) && env.cdOk ==> exit == 0
      ensures !old(current) && shopType == "lead" ==> exit == 1
      // no exported issue is lost, wherever the script stops
      ensures old(ExactExport(env)) && env.exportOk && old(db).Some? ==> old(db).value <= Issues()
      // a rebuild that exits zero
      ensures exit == 0 && !old(current) ==> current && db == Some(Committed()) && jsonl.Some?
      ensures exit == 0 && !old(current) && old(ExactExport(env)) && env.exportOk && old(db).Some? ==> old(db).value <= db.value
      ensures exit == 0 && !old(current) ==> backup == None
      // config.yaml, its backup, the DB and the schema, wherever the script stops
      ensures db == if HealProceeds(old(Snap()), shopType, env) then RebuiltDb(old(Snap()), env) else old(db)
      ensures backup == if HealProceeds(old(Snap()), shopType, env) then RebuiltBackup(old(Snap()), env) else old(backup)
      ensures config == HealedConfig(old(Snap()), shopType, env)
      ensures current <==> old(current) || (HealProceeds(old(Snap()), shopType, env)
                                            && ReachesInit(old(Snap()), env) && InitWorks(old(Snap()), env))
      // the export is captured, and a disproved subset leaves everything else intact
      ensures env.cdOk && !old(current) && shopType != "lead" ==> capture == Some(env.exportLines)
      ensures env.exportOk && old(db).Some? && !Lossless(Some(env.exportLines), jsonl) ==>
                Snap() == old(Snap()).(capture := capture) && configAtInit == old(configAtInit)
      // the remote changes only by the final force-push
      ensures remote == if exit == 0 && !old(current) && env.pushOk then db else old(remote)
      // `bd init` sees the stripped config, at most once
      ensures configAtInit == old(configAtInit)
                + (if HealProceeds(old(Snap()), shopType, env) && ReachesInit(old(Snap()), env)
                   then [Stripped(old(config), env)] else [])
      // a stop at `bd init` leaves the original config only in the backup
      ensures InitStops(old(Snap()), shopType, env) ==>
                exit == 1 && Snap() == AfterFailedInit(old(Snap()).(capture := Some(env.exportLines)), env)
      // ... and so does a stop at the restore
      ensures MoveStops(old(Snap()), shopType, env) ==>
                exit == 1 && Snap() == AfterFailedMove(old(Snap()).(capture := Some(env.exportLines)), env)
    {
      if !env.cdOk { return 1; }
      // (0) idempotent no-op
      if current { return 0; }
      // (1) lead-role refusal
      if shopType == "lead" { return 1; }
      // (2) pre-heal export; a failed one leaves some truncated file
      var exported := env.exportOk && db.Some?;
      capture := Some(env.exportLines);
      // (2a) subset guard
      if exported {
        var passes := SubsetGuard(capture, jsonl);
        if !passes { return 1; }
      }
      exit := Rebuild(env);
    }

    /** Healing again after a successful heal changes nothing. */
    method HealTwice(shopType: string, first: HealEnv, second: HealEnv) returns (exit: int, again: int, ghost between: Snapshot)
      requires second.cdOk
      modifies this
      ensures exit == 0 ==> again == 0 && Snap() == between
    {
      exit := SchemaSkewHeal(shopType, first);
      between := Snap();
      again := SchemaSkewHeal(shopType, second);
    }

    /** A heal that stops at `bd init` and is retried with success loses every sync.remote line: the
        retry backs up the already stripped file over the original. */
    method HealAfterFailedInit(shopType: string, first: HealEnv, second: HealEnv) returns (exit: int, again: int)
      requires first.grepOk && second.grepOk && config.Some?
      requires InitStops(Snap(), shopType, first)
      modifies this
      ensures exit == 1
      ensures again == 0 <==> var left := AfterFailedInit(old(Snap()).(capture := Some(first.exportLines)), first);
                              HealProceeds(left, shopType, second) && RebuildWorks(left, second)
      ensures again == 0 ==>
                && config == Some(Without(old(config).value, HealRemoteLine)) && backup == None
                && (config == old(config) <==> !ConfiguresRemote(old(config), HealRemoteLine))
    {
      ghost var original := config.value;
      exit := SchemaSkewHeal(shopType, first);
      again := SchemaSkewHeal(shopType, second);
      WithoutHasNone(original, HealRemoteLine);
    }

    /** A heal that stops because the config cannot be put back leaves a current DB, so every later heal is a
        no-op: config.yaml stays stripped for good, and the original only in the backup. */
    method HealsAfterFailedMove(shopType: string, first: HealEnv, later: seq<HealEnv>) returns (exit: int, exits: seq<int>)
      requires MoveStops(Snap(), shopType, first)
      modifies this
      ensures exit == 1
      ensures Snap() == AfterFailedMove(old(Snap()).(capture := Some(first.exportLines)), first)
      ensures |exits| == |later| && forall k | 0 <= k < |later| :: exits[k] == if later[k].cdOk then 0 else 1
    {
      exit := SchemaSkewHeal(shopType, first);
      ghost var stranded := Snap();
      exits := [];
      for k := 0 to |later|
        invariant Snap() == stranded
        invariant |exits| == k && forall j | 0 <= j < k :: exits[j] == if later[j].cdOk then 0 else 1
      {
        var again := SchemaSkewHeal(shopType, later[k]);
        exits := exits + [again];
      }
    }

    /** Capture the first sync.remote line, then delete all of them. */
    method StripRemote(sedOk: bool) returns (captured: seq<string>)
      modifies this`config
      ensures captured == if old(config).Some? then FirstOf(Matching(old(config).value, SeedRemoteLine)) else []
      ensures config == if old(config).Some? && sedOk then Some(Without(old(config).value, SeedRemoteLine)) else old(config)
      ensures sedOk ==> !ConfiguresRemote(config, SeedRemoteLine)
    {
      captured := [];
      if config.Some? {
        captured := FirstOf(Matching(config.value, SeedRemoteLine));
        WithoutHasNone(config.value, SeedRemoteLine);
        if sedOk { config := Some(Without(config.value, SeedRemoteLine)); }
      }
    }

    /** Append the captured line, if there is one. */
    method PutBack(captured: seq<string>)
      modifies this`config
      ensures config == if captured == [] then old(config)
                        else Some((if old(config).Some? then old(config).value else []) + captured)
    {
      if captured != [] {
        config := Some((if config.Some? then config.value else []) + captured);
      }
    }

    /** The empty-remote seed script. */
    method EmptyRemoteSeed(env: SeedEnv) returns (exit: int)
      modifies this
      ensures exit == 0 || exit == 1
      ensures jsonl == old(jsonl) && capture == old(capture) && backup == old(backup)
      // `bd init` sees the stripped config, exactly when the script gets that far
      ensures configAtInit == old(configAtInit)
                + (if SeedReachesInit(old(Snap()), env) then [SeedStripped(old(config), env)] else [])
      // a stop before the config is touched changes nothing
      ensures !SeedStarts(old(Snap()), env) ==> exit == 1 && Snap() == old(Snap())
      // config.yaml, wherever the script stops
      ensures config == SeededConfig(old(Snap()), env)
      // the DB, which opens exactly when a fresh one could be made
      ensures db == SeededDb(old(Snap()), env)
      ensures SeedStarts(old(Snap()), env) ==>
                (current <==> env.rmOk && env.initOk && !ConfiguresRemote(SeedStripped(old(config), env), SeedRemoteLine))
      // success means that every step up to the removal worked and the remote now has Dolt data
      ensures exit == 0 <==> env.cdOk && env.gitOk && old(jsonl).Some? && env.rmOk && env.lsOk && remote.Some?
      ensures SeedReachesInit(old(Snap()), env) && env.sedOk && env.initOk && env.pushOk && env.lsOk ==>
                exit == 0 && db == Some({}) && current && remote == Some({})
      ensures remote == if SeedReachesInit(old(Snap()), env) && env.pushOk && db.Some? then db else old(remote)
    {
      if !env.cdOk { return 1; }
      // a commit of an empty tree fails, so without issues.jsonl the script ends here
      if !(env.gitOk && jsonl.Some?) { return 1; }
      var captured := StripRemote(env.sedOk);
      if !env.rmOk {
        db, current := env.dbLeft, false;
        return 1;
      }
      db, current := None, false;
      configAtInit := configAtInit + [config];
      if env.initOk && !ConfiguresRemote(config, SeedRemoteLine) {
        db, current := Some({}), true;
      } else {
        db := env.initLeft;
      }
      PutBack(captured);
      if env.pushOk && db.Some? { remote := db; }
      exit := if env.lsOk && remote.Some? then 0 else 1;
    }
  }

  /** The heal proceeds to `bd init` and stops there. */
  predicate InitStops(before: Snapshot, shopType: string, env: HealEnv) {
    HealProceeds(before, shopType, env) && ReachesInit(before, env) && !InitWorks(before, env)
  }

  /** The heal proceeds to the restore of config.yaml and stops there. */
  predicate MoveStops(before: Snapshot, shopType: string, env: HealEnv) {
    HealProceeds(before, shopType, env) && MoveFails(before, env)
  }

  /** config.yaml after a heal. */
  function HealedConfig(before: Snapshot, shopType: string, env: HealEnv): Option<seq<string>> {
    if HealProceeds(before, shopType, env) then RebuiltConfig(before, env) else before.config
  }

  /** The strip changes nothing: no file, or no matching line. */
  predicate NothingToStrip(config: Option<seq<string>>, env: HealEnv) {
    config.None? || (if env.grepOk then !ConfiguresRemote(config, HealRemoteLine) else env.configLeft == config)
  }

  /** For every workspace and all command results: a heal leaves config.yaml as it was if and only if it stops
      before the strip, or the strip has nothing to remove, or the whole rebuild works; a missing config.yaml must
      moreover not be filled from an old backup. */
  lemma HealKeepsConfigIff(before: Snapshot, shopType: string, env: HealEnv)
    ensures HealedConfig(before, shopType, env) == before.config
       <==> || !HealProceeds(before, shopType, env) || !ReachesInit(before, env)
            || (if RebuildWorks(before, env) then before.config.Some? || before.backup.None?
                else NothingToStrip(before.config, env))
  {
    if before.config.Some? { WithoutHasNone(before.config.value, HealRemoteLine); }
  }

  /** The workspace after a stop at `bd init`. */
  function AfterFailedInit(before: Snapshot, env: HealEnv): Snapshot {
    before.(db := env.initLeft, config := Stripped(before.config, env),
            backup := if before.config.Some? then before.config else before.backup)
  }

  /** `bd init` never sees a configured remote when the strip works. */
  lemma StrippedConfiguresNothing(config: Option<seq<string>>, env: HealEnv)
    requires env.grepOk
    ensures !ConfiguresRemote(Stripped(config, env), HealRemoteLine)
  {
    if config.Some? { WithoutHasNone(config.value, HealRemoteLine); }
  }

  /** A rebuild happens and works exactly under these conditions: outside a lead shop, with every exported issue
      committed, a committed file that loads, no remote in the way of `bd init`, and each unprotected command working
      where it runs. */
  lemma HealWorksIff(before: Snapshot, shopType: string, env: HealEnv)
    ensures HealProceeds(before, shopType, env) && RebuildWorks(before, env)
       <==> && env.cdOk && !before.current && shopType != "lead" && env.rmOk && env.initOk
            && (before.config.Some? ==> env.cpOk) && (before.config.Some? || before.backup.Some? ==> env.mvOk)
            && before.jsonl.Some? && Malformed !in before.jsonl.value
            && (env.exportOk && before.db.Some? ==>
                  && Malformed !in env.exportLines
                  && forall id: string | id != "" && Record("issue", id) in env.exportLines ::
                       Record("issue", id) in before.jsonl.value)
            && (before.remote.None? || before.config.None? || env.grepOk
                || env.configLeft.None? || forall l | l in env.configLeft.value :: !("sync.remote:" <= l))
  {
    if before.jsonl.Some? { SubsetOfIssues(env.exportLines, before.jsonl.value); }
    if env.grepOk { StrippedConfiguresNothing(before.config, env); }
  }

  /** A working strip of the only sync.remote line leaves the other lines in their order. */
  lemma StripTakesTheLine(front: seq<string>, line: string, back: seq<string>, env: HealEnv)
    requires env.grepOk && "sync.remote:" <= line
    requires forall l | l in front || l in back :: !("sync.remote:" <= l)
    ensures Stripped(Some(front + [line] + back), env) == Some(front + back)
  {
    FirstMatch(front, line, back, HealRemoteLine);
    NothingMatches(back, HealRemoteLine);
  }

  /** Every command of the heal that the script does not protect works, and so does the strip. */
  predicate Works(env: HealEnv) {
    env.cdOk && env.exportOk && env.rmOk && env.cpOk && env.grepOk && env.initOk && env.mvOk
  }

  /** When every command works, the rebuild happens exactly when it is lossless. */
  lemma WorkingHealIsExact(before: Snapshot, shopType: string, env: HealEnv)
    requires Works(env) && !before.current && shopType != "lead"
    requires before.jsonl.Some? && Parses(before.jsonl.value)
    requires before.db.Some? ==> Parses(env.exportLines) && IssueIds(env.exportLines) == before.db.value
    ensures HealProceeds(before, shopType, env) && RebuildWorks(before, env)
       <==> before.db.None? || before.db.value <= IssueIds(before.jsonl.value)
  {
    StrippedConfiguresNothing(before.config, env);
  }

  /** One workspace in which the retry loses its only sync.remote line. */
  method LossyRetry(line: string) returns (exit: int, again: int, config: Option<seq<string>>)
    requires HealRemoteLine(line)
    ensures exit == 1 && again == 0 && config == Some([])
  {
    var space := new Workspace(None, false, Some([]), Some([line]), None);
    var second := HealEnv(true, false, [], true, None, true, None, true, None, true, None, true, true);
    var first := second.(initOk := false);
    StrippedConfiguresNothing(Some([line]), first);
    assert Without([line], HealRemoteLine) == Without([line][1..], HealRemoteLine) == [];
    StrippedConfiguresNothing(Some([]), second);
    exit, again := space.HealAfterFailedInit("bc", first, second);
    config := space.config;
  }

  /** One workspace whose only sync.remote line is stranded in the backup by a failing restore, although the next
      heal works in full. */
  method StrandedConfig(line: string) returns (exit: int, again: int, config: Option<seq<string>>, current: bool)
    requires HealRemoteLine(line)
    ensures exit == 1 && again == 0 && config == Some([]) && current
  {
    var space := new Workspace(None, false, Some([]), Some([line]), None);
    var second := HealEnv(true, false, [], true, None, true, None, true, None, true, None, true, true);
    var first := second.(mvOk := false);
    StrippedConfiguresNothing(Some([line]), first);
    assert Without([line], HealRemoteLine) == Without([line][1..], HealRemoteLine) == [];
    var exits;
    exit, exits := space.HealsAfterFailedMove("bc", first, [second]);
    again, config, current := exits[0], space.config, space.current;
  }

  function FirstOf(lines: seq<string>): seq<string> {
    if lines == [] then [] else [lines[0]]
  }

  /** The seed gets past the commit of issues.jsonl. */
  predicate SeedStarts(before: Snapshot, env: SeedEnv) {
    env.cdOk && env.gitOk && before.jsonl.Some?
  }

  predicate SeedReachesInit(before: Snapshot, env: SeedEnv) {
    SeedStarts(before, env) && env.rmOk
  }

  /** What the protected `sed` leaves. */
  function SeedStripped(config: Option<seq<string>>, env: SeedEnv): Option<seq<string>> {
    if config.Some? && env.sedOk then Some(Without(config.value, SeedRemoteLine)) else config
  }

  /** The DB after a seed: none but what a failing command leaves, or a fresh one without issues. */
  function SeededDb(before: Snapshot, env: SeedEnv): Option<set<string>> {
    if !SeedStarts(before, env) then before.db
    else if !env.rmOk then env.dbLeft
    else if env.initOk && !ConfiguresRemote(SeedStripped(before.config, env), SeedRemoteLine) then Some({})
    else env.initLeft
  }

  /** config.yaml after a seed: stripped, and with the first sync.remote line appended once `bd init` has run. */
  function SeededConfig(before: Snapshot, env: SeedEnv): Option<seq<string>> {
    if before.config.None? || !SeedStarts(before, env) then before.config
    else
      var stripped := SeedStripped(before.config, env).value;
      var captured := FirstOf(Matching(before.config.value, SeedRemoteLine));
      Some(if env.rmOk && captured != [] then stripped + captured else stripped)
  }

  /** `bd init` never sees a configured remote when the strip works. */
  lemma SeedStrippedConfiguresNothing(config: Option<seq<string>>, env: SeedEnv)
    requires env.sedOk
    ensures !ConfiguresRemote(SeedStripped(config, env), SeedRemoteLine)
  {
    if config.Some? { WithoutHasNone(config.value, SeedRemoteLine); }
  }

  /** A working seed moves the first sync.remote line to the end and drops any further ones; the other lines keep
      their order. */
  lemma SeedMovesTheLine(before: Snapshot, env: SeedEnv, front: seq<string>, line: string, back: seq<string>)
    requires SeedReachesInit(before, env) && env.sedOk
    requires before.config == Some(front + [line] + back)
    requires "sync.remote" <= line && forall l | l in front :: !("sync.remote" <= l)
    ensures SeededConfig(before, env) == Some(front + Without(back, SeedRemoteLine) + [line])
    ensures (forall l | l in back :: !("sync.remote" <= l)) ==> SeededConfig(before, env) == Some(front + back + [line])
  {
    FirstMatch(front, line, back, SeedRemoteLine);
    if forall l | l in back :: !("sync.remote" <= l) { NothingMatches(back, SeedRemoteLine); }
  }

  lemma SameMultisetSize(a: seq<string>, b: seq<string>)
    requires multiset(a) == multiset(b)
    ensures |a| == |b|
  {
    assert |multiset(a)| == |a| && |multiset(b)| == |b|;
  }

  /** How many lines the strip removes, and what putting the first one back restores. */
  lemma StripThenAppend(lines: seq<string>, kept: seq<string>, back: seq<string>)
    requires kept == Without(lines, SeedRemoteLine) && back == FirstOf(Matching(lines, SeedRemoteLine))
    ensures multiset(kept + back) == multiset(lines) <==> |Matching(lines, SeedRemoteLine)| <= 1
    ensures multiset(kept) == multiset(lines) <==> |Matching(lines, SeedRemoteLine)| == 0
    ensures multiset(lines + back) == multiset(lines) <==> |Matching(lines, SeedRemoteLine)| == 0
  {
    var matched := Matching(lines, SeedRemoteLine);
    SplitMultiset(lines, SeedRemoteLine);
    assert |multiset(lines)| == |kept| + |matched|;
    if multiset(kept + back) == multiset(lines) { SameMultisetSize(kept + back, lines); }
    if multiset(kept) == multiset(lines) { SameMultisetSize(kept, lines); }
    if multiset(lines + back) == multiset(lines) { SameMultisetSize(lines + back, lines); }
    if |matched| == 1 { assert matched == [matched[0]]; }
  }

  /** For every workspace with a config.yaml and all command results: the seed keeps its lines, up to order, if and
      only if it stops before the strip, or there is no sync.remote line, or there is one and both the strip and the
      removal of the old DB work, or both of them fail. */
  lemma SeedKeepsLinesIff(before: Snapshot, env: SeedEnv)
    requires before.config.Some?
    ensures multiset(SeededConfig(before, env).value) == multiset(before.config.value)
       <==> || !SeedStarts(before, env)
            || |Matching(before.config.value, SeedRemoteLine)| == 0
            || (env.sedOk && env.rmOk && |Matching(before.config.value, SeedRemoteLine)| == 1)
            || (!env.sedOk && !env.rmOk)
  {
    var lines := before.config.value;
    StripThenAppend(lines, Without(lines, SeedRemoteLine), FirstOf(Matching(lines, SeedRemoteLine)));
  }
}
