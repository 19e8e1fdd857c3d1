# Verified model of the BC launcher's hard core

This project models five parts of the BC launcher and proves what they guarantee.

1. **The watcher supervisor** (`Supervisor*.dfy`, `Tracker.dfy`, `Simulation.dfy`). The emitted shell of the fabro
   engage is a concurrent protocol: dispatchers take one lock directory per sanitised work id with `mkdir`, detached
   workers write a per-key config, run one child, bump a shared counter, delete the config and drop the lock. One event
   is one file operation of one worker, so a run is any interleaving. The counter bump is three steps: read, open (which
   empties the file), write. Next to it stands the sequential `DispatchTracker` it replaced, and a simulation between
   the two.
2. **The tracker repair ladder** (`IssueGuard.dfy`, `BeadsScripts.dfy`, `Ladder.dfy`, `LadderMessages.dfy`). The schema-skew heal and the
   empty-remote seed run under `set -e` on a mutable workspace; any unprotected command may end them. `Ladder` is the
   create, seed and heal sequence around them.
3. **The agent start** (`Text.dfy`, `Readiness.dfy`, `PaneDriver.dfy`, `WaitTiming.dfy`, `PhaseTiming.dfy`,
   `SessionLooks.dfy`, `SessionTrace.dfy`, `AgentSession.dfy`). Probes, trust banner, readiness loop with dismissals, option screen and
   two-write submit over an adversarial pane and clock, recorded in a trace of captures, waits and keys; and how long a
   wait and a whole phase last.
4. **The presence heartbeat** (`Heartbeat.dfy`). A timed loop over real time.
5. **Two text formats** (`EnvFile.dfy`, `EnvValues.dfy`, `WorkflowToml.dfy`). The env-file parser with multi-line quotes, and the
   rewrite of `BC_NAME` and `WORK_ID` in workflow.toml, read back as basic strings (section "String" of TOML v1.0.0).

`dafny verify dfyconfig.toml` checks everything.

## How to read the model

- *State machines.* `Supervisor.Next` gives one step and `Exec` a whole schedule; `Reachable` starts from a fresh
  counter and worker list. The field `stuck` records locks that no worker owns: the directory entries `.` and `..`,
  locks left over from an earlier start, and locks whose `rm -rf` failed.
- *Failing commands.* A command the shell protects (`|| true`, `2>/dev/null`) carries a flag saying whether it worked.
  In the heal and the seed every command has such a flag, and a `...Left` value for what a failing one leaves behind.
- *Waits that may not return.* `wait_for_pane_marker` restarts its idle budget at every pane change, so a wait may go on
  for ever. A `Terminal` is observed for `left` captures; a run that needs more ends there with the outcome `Cut` or
  `CutShort`. As `left` is arbitrary, what holds of every cut run holds of every finite prefix of every real run.
- *Time* is real-valued and only moves forward.

## Where the code and its documentation differ

- `src/bc_launcher/fabro/constants.py:446` calls the completed counter monotonic. The published number never drops if and
  only if no bump opens the file, which empties it, while it publishes a number (`PublishedNeverDropsIff`). Without any
  overlap that means: if and only if at most one bump opens the file (`CleanRunDropsIff`). The numbers written go down if
  and only if some worker is overtaken: between its read and its write the number written last comes to exceed what it
  read by at least two (`WritesRiseIff`). In clean runs they are 1, 2, 3 and so on (`CleanWritesCountUp`); with
  overlapping bumps they can fall from 2 to 1 (`CounterCanGoDown`). The counter never runs ahead (`CounterNeverAhead`),
  and with no bump under way it is exact if and only if no bump overlapped another or failed to write
  (`CounterExactIffClean`).
- "Exactly once" in `DispatchTracker` needs distinct pending lists: an id listed twice in one poll is spawned twice
  (`DoubleSpawnIffListedTwice`). Ids observed in flight are not remembered (`ObservedIsNotRemembered`).
- Lock keys are not one to one: two ids share one if and only if they look alike, that is, where they differ both have an
  underscore or a character that becomes one (`SameKeyIffAlike`, e.g. `a_b` and `a/b` in `UnderscoreCollides`). Ids made
  of the allowed characters alone never block each other (`PlainIdsDoNotBlock`).
- The lock directory is created but not cleared at start-up. A pending id whose lock is left over is never served
  (`StuckIdIsNeverServed`); the ids `.` and `..` never are.
- The cadence guard admits a bound of 0, but `timeout 0` means no limit (`ZeroBoundIsAdmittedButStale`). The exact
  condition is a positive bound with sleep plus bound at most the window (`OnlineIffPeriodFits`).
- The 60 s readiness limit bounds the number of attempts, not the time: for every limit there are screens on which one
  wait lasts longer (`OutlastsAnyLimit`). On a terminal without delays a wait that gives up ends within a limit if and
  only if its last pane change comes one budget, in whole intervals, before the limit (`IdleWaitWithin`), and it gives
  up at all if and only if the screens go unchanged for that long (`GivesUpIffSettles`). A whole phase takes at most ten
  captures for each pane change and 144 more; when it gives up it has lasted at least 60 s, and without delays it lasts at
  most 60 s and five more for each pane change (`TrustPhase`, `ReadyPhase`).
- The readiness check lower-cases the pane before it looks for `esc to`, the option-screen check does not. A screen that
  the first would dismiss is refused by the second if and only if every such place is spelled with a capital letter
  (`RefusedIffAlwaysCapital`); there is such a screen (`ChecksDisagree`). The classifier's unnamed-prompt fallback is
  never reached (`BlockingIffDismissable`).
- The heal calls the removal of `sync.remote` temporary. Over all workspaces and command results it leaves config.yaml as
  it was if and only if it stops before the strip, or there is nothing to strip, or the whole rebuild works
  (`HealKeepsConfigIff`, which also covers a missing config.yaml). Two stops break it. When `bd init` fails, config.yaml
  stays without the lines, and a later successful heal overwrites the backup and loses them for good
  (`HealAfterFailedInit`, reached in `LossyRetry`). When the `mv` that restores it fails, the DB is already current, so
  every later heal is a no-op that exits zero and never puts the lines back (`HealsAfterFailedMove`, reached in
  `StrandedConfig`).
- The seed keeps the lines of config.yaml, up to order, if and only if it stops before the strip, or there is no
  sync.remote line, or there is one and both `sed` and `rm -rf` work, or both fail (`SeedKeepsLinesIff`). A failing `sed`
  alone duplicates the line, a failing `rm -rf` alone loses it, and of several lines only the first comes back.
- The env-file round trip is exact: a value of several lines comes back if and only if its first line does not end in
  white space or the quote, and no later line holds the quote (`EntryRoundTrip`).
- The workflow.toml rewrite means to keep the string well-formed for every identity. An identity with a control
  character is malformed (`EscapeReadsBack`), and rewriting again after an identity with a double quote leaves pieces
  of it behind (`RewriteTwice`, `RewriteTwiceIff`).

## Model

| member | source | states |
|---|---|---|
| Supervisor.LockIffOwned | src/bc_launcher/fabro/engage.py:433-460 | In every interleaving a lock outside the stuck ones exists exactly while one worker is between its `mkdir` and its `rm -rf`, and only one worker owns it |
| Supervisor.NoTwoLiveChildren | src/bc_launcher/fabro/engage.py:449-460 | No two children with the same key are ever live together, even for different ids |
| Supervisor.LiveChildReadsItsOwnConfig | src/bc_launcher/fabro/engage.py:410-447 | From a worker's config write until its child ends, the config of its key holds exactly its identity |
| Supervisor.NextKeepsInv | src/bc_launcher/fabro/engage.py:433-460 | Every single file operation keeps ownership, exclusion and config contents |
| Supervisor.ReachableInv | src/bc_launcher/fabro/engage.py:351-460 | The invariant holds in every reachable state |
| SupervisorKeys.KeyIsPlain | src/bc_launcher/fabro/engage.py:435 | A key has the length of its id and holds only ASCII letters, digits, dots, underscores and hyphens |
| SupervisorKeys.KeyIsIdIffPlain | src/bc_launcher/fabro/engage.py:435 | The key is the id if and only if the id holds only such characters |
| SupervisorKeys.SameKeyIffAlike | src/bc_launcher/fabro/engage.py:435 | Two ids share a key if and only if they are equally long and, wherever they differ, both have an underscore or a character that becomes one |
| SupervisorKeys.UnderscoreCollides | src/bc_launcher/fabro/engage.py:435 | Two different ids with one key, one of them made of allowed characters only |
| SupervisorKeys.DispatchStartsIff | src/bc_launcher/fabro/engage.py:452-460 | In every reachable state a dispatch starts a worker if and only if the id is not empty, its key is not stuck, and no live worker has an id that looks like it |
| SupervisorKeys.PlainIdsDoNotBlock | src/bc_launcher/fabro/engage.py:452-460 | Among ids of allowed characters a dispatch is refused only while the same id is live or a stuck lock bears its name |
| SupervisorKeys.DotIdsNeverStart | src/bc_launcher/fabro/engage.py:452-460 | The ids `.` and `..` are never started |
| SupervisorKeys.FreshStart | src/bc_launcher/fabro/engage.py:351-353 | A start with any locks left over is a fresh start of the model |
| SupervisorInbox.StaysUntilAnswered | src/bc_launcher/fabro/engage.py:433-447 | A pending id stays pending, whatever happens, until a child started for this very id has answered |
| SupervisorInbox.PendingIffUnanswered | src/bc_launcher/fabro/engage.py:433-447 | Unless it arrives again, an id is pending after a run if and only if it was before and no such child has answered |
| SupervisorInbox.ConfigsAreRemoved | src/bc_launcher/fabro/engage.py:410-442 | When every removal works and all workers are done, a run leaves no child config behind |
| SupervisorCounter.CounterNeverAhead | src/bc_launcher/fabro/engage.py:438-440 | The counter never exceeds the finished bumps, hence never the children that ended |
| SupervisorCounter.CounterExactIffClean | src/bc_launcher/fabro/engage.py:440 | With no bump under way the counter is exact if and only if no two bumps overlapped and none failed |
| SupervisorCounter.CounterCanGoDown | src/bc_launcher/fabro/constants.py:446-448 | For any three ids with free, distinct keys there is a run in which the published number goes from 2 to 1 |
| SupervisorCounterTrend.PublishedNeverDropsIff | src/bc_launcher/fabro/engage.py:379-440 | In every run the published number never drops if and only if no bump empties the file while it publishes a number |
| SupervisorCounterTrend.CleanRunDropsIff | src/bc_launcher/fabro/engage.py:379-440 | In a run without overlapping bumps the published number never drops if and only if at most one bump opens the file |
| SupervisorCounterTrend.WritesRiseIff | src/bc_launcher/fabro/engage.py:440 | The numbers written go down if and only if between some worker's read and its write the number written last comes to exceed what it read by at least two |
| SupervisorCounterTrend.CleanWritesCountUp | src/bc_launcher/fabro/engage.py:440 | In every clean run the writes publish 1, 2, 3 and so on, one for each finished bump |
| SupervisorCounter.NextKeepsCountInv | src/bc_launcher/fabro/engage.py:440 | Every step keeps the bounds on the file and on all numbers about to be written |
| SupervisorTelemetry.ActiveRunsCountsLiveWorkers | src/bc_launcher/fabro/engage.py:376-382 | The sampled `active_runs` is the number of live workers with a listed key plus the listed stuck locks |
| SupervisorTelemetry.ShownUnlessDotted | src/bc_launcher/fabro/engage.py:378-379 | A live worker is listed if and only if its id is not empty and does not start with a dot |
| SupervisorDrain.Watcher.DispatchOne | src/bc_launcher/fabro/engage.py:452-460 | A dispatch starts a worker if and only if the id is not empty and its key is not locked |
| SupervisorDrain.Watcher.Drain | src/bc_launcher/fabro/engage.py:463-470 | A drain dispatches exactly the listed named ids in order, whatever workers do in between; without a listing it does nothing |
| SupervisorDrain.Watcher.DrainAndFinish | src/bc_launcher/fabro/engage.py:461-470 | Draining the listed inbox and then waiting is a round whenever all workers are done by then and everything cooperated, unless the empty id was pending |
| SupervisorDrain.DrainIsRound | src/bc_launcher/fabro/engage.py:461-470 | A run that dispatches the listed ids, from all workers done to all workers done, is a round if and only if no empty id is pending |
| SupervisorDrain.DrainCanFinish | src/bc_launcher/fabro/engage.py:433-470 | Every listing of the inbox has a round that dispatches it in its order |
| SupervisorDrain.StartedWasDispatched | src/bc_launcher/fabro/engage.py:452-470 | Only listed ids are started |
| SupervisorDrain.DispatchedIsStartedOrLocked | src/bc_launcher/fabro/engage.py:452-470 | Every listed id that was not started had its key locked when it was looked at |
| SupervisorRounds.RoundShrinksEveryGroup | src/bc_launcher/fabro/engage.py:452-487 | A drain followed by all workers finishing answers at least one id of every group sharing a free key |
| SupervisorRounds.RoundsEmptyTheInbox | src/bc_launcher/fabro/engage.py:461-487 | Such rounds empty the inbox in at most as many rounds as the largest group has ids |
| SupervisorRounds.RoundExists | src/bc_launcher/fabro/engage.py:433-487 | From every quiescent state such a round can be completed |
| SupervisorRounds.StuckIdIsNeverServed | src/bc_launcher/fabro/engage.py:351-455 | A pending id whose key is stuck stays pending for ever |
| Tracker.Decide | src/bc_launcher/assets/fabro-def/dispatch_acp_agent.py:32-49 | One decision per listed id in order, SKIP exactly for ids in flight |
| Tracker.DispatchTracker.Cycle | src/bc_launcher/assets/fabro-def/dispatch_acp_agent.py:67-75 | One decision per listing against own and observed ids; exactly the listed ids that were not observed join the own set |
| Tracker.DispatchTracker.Retire | src/bc_launcher/assets/fabro-def/dispatch_acp_agent.py:77-80 | Exactly the retired id leaves the set |
| Tracker.HandleSessionPrompt | src/bc_launcher/assets/fabro-def/dispatch_acp_agent.py:178-193 | The spawned list is the SPAWN decisions in order, with and without a tracker |
| Tracker.SpawnMultiplicity | src/bc_launcher/assets/fabro-def/dispatch_acp_agent.py:44-49 | A known id is never spawned, any other id once per listing |
| Tracker.DoubleSpawnIffListedTwice | src/bc_launcher/assets/fabro-def/dispatch_acp_agent.py:46-48 | One cycle spawns an id twice exactly when it is unknown and listed twice |
| Tracker.ObservedIsNotRemembered | src/bc_launcher/assets/fabro-def/dispatch_acp_agent.py:67-75 | An id that was only observed in flight is spawned by the next cycle that does not observe it |
| Tracker.DistinctIffListedOnce | src/bc_launcher/assets/fabro-def/dispatch_acp_agent.py:46-48 | A pending list is distinct if and only if it lists nothing twice |
| Tracker.RespawnNeedsRetire | src/bc_launcher/assets/fabro-def/dispatch_acp_agent.py:52-80 | Over any history, two cycles that spawn one id have a retirement of it between them |
| Tracker.SpawnedAtMostOncePerLife | src/bc_launcher/assets/fabro-def/dispatch_acp_agent.py:52-80 | With distinct lists, an id is spawned at most once between retirements, exactly when it enters flight |
| Tracker.InFlightIffListed | src/bc_launcher/assets/fabro-def/dispatch_acp_agent.py:52-80 | Over any history an id is in flight if and only if some cycle listed it without observing it, and it was not retired after that |
| Simulation.ShellSimulatesObservingTracker | src/bc_launcher/fabro/engage.py:433-460 | Every run of the shell takes the decisions of a tracker that observes locked keys; the live ids are its in-flight set |
| Simulation.ShellSimulatesPlainTracker | src/bc_launcher/fabro/engage.py:433-460 | Without key collisions and stuck locks the shell takes the decisions of a tracker that observes nothing |
| Simulation.PlainIdsDoNotCollide | src/bc_launcher/fabro/engage.py:433-460 | For ids of allowed characters that are not stuck, and working lock removals, the shell is that plain tracker |
| Simulation.StepSimulates | src/bc_launcher/fabro/engage.py:433-460 | Each shell step is matched by tracker operations with the same decisions and the same ids in flight |
| Simulation.SkippedThoughNotInFlight | src/bc_launcher/fabro/engage.py:452-459 | An id that is not in flight is skipped exactly when its key is stuck or held by another id |
| Heartbeat.HeartbeatLoop | src/bc_launcher/fabro/engage.py:402-405 | The loop performs exactly the upserts that follow successful liveness checks, at the times the cadence gives |
| Heartbeat.UpsertsApart | src/bc_launcher/fabro/engage.py:402-405 | Successive upserts are one watch, one whole sleep and one delay apart |
| Heartbeat.UpsertsSpaced | src/bc_launcher/fabro/engage.py:402-405 | So many rounds take at least that many whole sleeps, wherever they start |
| Heartbeat.ShortestRound | src/bc_launcher/fabro/engage.py:402-405 | A round may take no longer than the sleep |
| Heartbeat.AgeBound | src/bc_launcher/fabro/engage.py:224-233 | While the server lives, the record is younger than sleep plus bounded watch plus scheduling delay |
| Heartbeat.LatestExists | src/bc_launcher/fabro/engage.py:402-405 | From the first upsert on there is always a latest one |
| Heartbeat.LiveStaysOnline | src/bc_launcher/fabro/engage.py:233-241 | For every admitted cadence with positive parts and no delay, a live BC's age stays strictly below the window |
| Heartbeat.OnlineIffPeriodFits | src/bc_launcher/fabro/engage.py:224-241 | Every run stays below the window if and only if the bound is positive and sleep plus bound is at most the window |
| Heartbeat.GuardIffOnline | src/bc_launcher/fabro/engage.py:232-241 | With a bounded watch the guard admits exactly the cadences that keep a BC online, but for those whose period is the window itself; it admits no zero period |
| Heartbeat.ZeroBoundIsAdmittedButStale | src/bc_launcher/fabro/engage.py:233-241 | The guard admits a zero bound, under which an idle BC can go stale |
| Heartbeat.AtMostOneUpsertAfterDeath | src/bc_launcher/fabro/engage.py:402-405 | At most one upsert comes at or after the server's death, no later than the death plus sleep plus delay |
| IssueGuard.CollectIds | src/bc_launcher/tracker_provision.py:124-133 | The collected ids are exactly the ids of issue records; a malformed line aborts |
| IssueGuard.IssueIdsAre | src/bc_launcher/tracker_provision.py:124-133 | An id counts if and only if it is not empty and a record of kind `issue` has it |
| IssueGuard.SubsetGuard | src/bc_launcher/tracker_provision.py:134-152 | The guard passes if and only if both files parse and every exported record of kind `issue` with an id is committed too |
| BeadsScripts.Workspace.Rebuild | src/bc_launcher/tracker_provision.py:286-318 | Steps 3 to 5: the exit is zero exactly when every command they depend on works; config.yaml and the schema state are exact at every stop; a stop at `bd init` or at the restoring `mv` leaves the original config only in the backup |
| BeadsScripts.Workspace.SchemaSkewHeal | src/bc_launcher/tracker_provision.py:252-319 | The exit is zero exactly when there is nothing to do or no refusal applies and every command it depends on works; at every stop no exported issue is lost, and config.yaml, the schema state and the remote are exact; a disproved subset and a lead shop change nothing |
| BeadsScripts.HealWorksIff | src/bc_launcher/tracker_provision.py:252-309 | A rebuild happens and works if and only if the shop is no lead, every exported issue record is committed, the committed file loads, no remote stands in the way of `bd init`, and each unprotected command works where it runs |
| BeadsScripts.HealKeepsConfigIff | src/bc_launcher/tracker_provision.py:286-309 | A heal leaves config.yaml as it was if and only if it stops before the strip, or there is nothing to strip, or the whole rebuild works and fills no missing config.yaml |
| BeadsScripts.StrippedConfiguresNothing | src/bc_launcher/tracker_provision.py:295-298 | The config that `bd init` sees configures no sync remote |
| BeadsScripts.StripTakesTheLine | src/bc_launcher/tracker_provision.py:295-298 | A working strip of the only sync.remote line leaves the other lines in their order |
| BeadsScripts.WorkingHealIsExact | src/bc_launcher/tracker_provision.py:283-304 | When every command works, the heal rebuilds exactly when the exported issues are all committed |
| BeadsScripts.Workspace.HealTwice | src/bc_launcher/tracker_provision.py:166-168 | A heal after a successful one exits zero and changes nothing |
| BeadsScripts.Workspace.HealAfterFailedInit | src/bc_launcher/tracker_provision.py:288-309 | After a stop at `bd init` the retry succeeds exactly when its own commands work on what is left, and config.yaml is then intact exactly when it had no sync.remote line |
| BeadsScripts.LossyRetry | src/bc_launcher/tracker_provision.py:288-309 | A workspace in which the stop and the successful retry happen and the only line is lost |
| BeadsScripts.Workspace.HealsAfterFailedMove | src/bc_launcher/tracker_provision.py:255-309 | After a stop at the restoring `mv` every later heal is a no-op, so config.yaml stays stripped whatever works then |
| BeadsScripts.StrandedConfig | src/bc_launcher/tracker_provision.py:299-309 | A workspace whose only line is stranded in the backup although the next heal works in full |
| BeadsScripts.Workspace.StripRemote | src/bc_launcher/tracker_provision.py:520-522 | The first sync.remote line is captured and all of them are gone |
| BeadsScripts.Workspace.EmptyRemoteSeed | src/bc_launcher/tracker_provision.py:453-552 | `bd init` is reached exactly when `cd`, the commit and `rm -rf` work; config.yaml is exact at every stop; the exit is zero exactly when `bd init` was reached and the remote ends with Dolt data |
| BeadsScripts.SeedStrippedConfiguresNothing | src/bc_launcher/tracker_provision.py:520-537 | When `sed` works, the config that `bd init` sees configures no sync remote |
| BeadsScripts.SeedMovesTheLine | src/bc_launcher/tracker_provision.py:520-542 | A working seed moves the first sync.remote line to the end and drops further ones; the others keep their order |
| BeadsScripts.SeedKeepsLinesIff | src/bc_launcher/tracker_provision.py:520-542 | The seed keeps the multiset of config lines if and only if it stops before the strip, or no line is a sync.remote line, or one is and both `sed` and `rm -rf` work, or both fail |
| Ladder.Provisioner.CreateStage | src/bc_launcher/controller/_beads_provisioning.py:55-102 | A creation exactly when a failing bootstrap says "repository not found" on stderr, or on stdout when stderr is empty; a retry exactly when it worked, no issue lost |
| Ladder.Provisioner.SeedStage | src/bc_launcher/controller/_beads_provisioning.py:117-157 | A seed exactly when a failing bootstrap reports an empty remote on stderr, or on stdout when stderr is empty; a retry exactly when it worked, otherwise nothing changes |
| Ladder.Provisioner.HealStage | src/bc_launcher/controller/_beads_provisioning.py:176-215 | A heal exactly when a failing bootstrap reports a schema refusal on stderr, or on stdout when stderr is empty; its zero exit becomes the result and leaves a DB that opens; no issue is lost when the export covers the DB |
| Ladder.Provisioner.Provision | src/bc_launcher/controller/_beads_provisioning.py:36-242 | Each repair is tried exactly when the latest bootstrap asks for it; truthful bootstraps and working repairs end with a zero result and a DB that opens; without a seed no issue is lost unless a heal's export fails to cover the DB |
| LadderMessages.StdoutIsIgnored | src/bc_launcher/controller/_beads_provisioning.py:61-197 | Runs whose bootstraps differ only in what they wrote to stdout beside stderr try the same repairs, as long as the seed ends the same way |
| LadderMessages.OnlyKnownFailures | src/bc_launcher/tracker_provision.py:42-118 | The exact wordings that count as an empty remote and as a schema refusal, which exclude each other |
| LadderMessages.KnownFailures | src/bc_launcher/tracker_provision.py:42-118 | In any letter case and amid any text, the known wordings are recognised |
| LadderMessages.SpreadFailure | src/bc_launcher/tracker_provision.py:62-67 | The older empty-remote wording is recognised in two pieces |
| LadderMessages.SpreadRefusal | src/bc_launcher/tracker_provision.py:93-118 | A refusal is recognised by its wording alone, exactly when the message does not report an empty remote |
| Ladder.NeverSeedAndHealOneMessage | src/bc_launcher/tracker_provision.py:84-90 | A seed and a heal never answer the same message |
| Ladder.AtMostThreeBoots | src/bc_launcher/controller/_beads_provisioning.py:36-157 | Every run bootstraps at most three times, once more than the creations and seeds that worked |
| Ladder.LadderEndsWell | src/bc_launcher/controller/_beads_provisioning.py:36-242 | The stages' effects on repo, remote and DB, which come from the scripts' contracts, add up to a zero result and a current DB |
| Ladder.EveryStateIsReportable | src/bc_launcher/tracker_provision.py:42-106 | Every state of the tracker has a bootstrap result that reports it truthfully |
| Readiness.BlockingIffDismissable | src/bc_launcher/readiness.py:137-176 | A pane blocks exactly when it advertises Esc and is neither trust prompt nor input-ready; the renderer prompt has its own name, any other is named by its first visible line, stripped |
| Text.LowerAlphabet | src/bc_launcher/readiness.py:165 | Lower-casing maps each ASCII capital to its letter |
| Readiness.EscapableLowered | src/bc_launcher/readiness.py:165-168 | What the option-screen check accepts, the readiness check accepts too |
| Readiness.RefusedIffAlwaysCapital | src/bc_launcher/controller/_engage.py:384-422 | A dismissable option screen is refused if and only if every affordance on it is spelled with a capital letter |
| Readiness.ChecksDisagree | src/bc_launcher/controller/_engage.py:384-422 | There is an option screen which the readiness check dismisses and the option-screen check refuses |
| Readiness.CapitalEscIsRefused | src/bc_launcher/controller/_engage.py:384-422 | A family of screens on which the two checks disagree |
| PaneDriver.Terminal.WaitForPaneMarker | src/bc_launcher/driver/real.py:460-480 | True only if the last capture alone holds the marker; False exactly at the first capture that completes a steady stretch of the budget; the captures are bounded by the pane changes |
| WaitTiming.IdleWaitWithin | src/bc_launcher/driver/real.py:460-480 | Without delays a wait that gives up ends within a limit if and only if its last pane change comes early enough |
| WaitTiming.GivesUpIffSettles | src/bc_launcher/driver/real.py:465-480 | Without delays a wait that never sees its marker gives up if and only if the screens go unchanged for one budget |
| WaitTiming.OutlastsAnyLimit | src/bc_launcher/driver/real.py:425-437 | For every time limit a wait for input-ready that lasts longer and gives up |
| AgentSession.AgentSession.TrustPhase | src/bc_launcher/controller/_agent_session.py:256-308 | At most twelve waits; one Enter exactly when a wait found the banner; it gives up only when no wait found the banner and no capture showed input-ready; captures bounded by the pane changes; giving up takes 60 s at least and, without delays, five more per pane change at most |
| AgentSession.AgentSession.TrustAttempt | src/bc_launcher/controller/_agent_session.py:262-308 | One round: a bounded wait, then one Enter for a banner, or one capture; it goes on only after a capture without input-ready, and has then used its budget |
| AgentSession.AgentSession.ReadyPhase | src/bc_launcher/controller/_agent_session.py:361-416 | At most twelve waits and twelve Escapes; an Escape follows a capture if and only if the pane advertises Esc and shows neither the trust prompt nor input-ready; it succeeds if and only if a wait found input-ready, unless cut short; captures and time bounded by the pane changes |
| AgentSession.AgentSession.ReadyAttempt | src/bc_launcher/controller/_agent_session.py:366-416 | One round: a bounded wait, then at most one Escape, for a dismissable pane just captured; a round that goes on used its budget |
| AgentSession.AgentSession.Dismiss | src/bc_launcher/controller/_agent_session.py:393-415 | One Escape, directly after the capture of a dismissable pane, and a warning naming the prompt |
| AgentSession.AgentSession.HandleOptionScreen | src/bc_launcher/controller/_engage.py:383-426 | One capture, then nothing, one Escape for an escapable screen, or a refusal without any key |
| AgentSession.AgentSession.Barriers | src/bc_launcher/controller/_agent_session.py:160-211 | Both probes pass, or the run ends with an attempted diagnostic and no key |
| AgentSession.AgentSession.WriteLaunchDiagnostic | src/bc_launcher/controller/_engage.py:223-243 | The write is attempted once and its failure is not fatal |
| AgentSession.AgentSession.Inject | src/bc_launcher/controller/_agent_session.py:465-500 | The prompt as one paste and then at once a bare Enter, through a buffer exactly when it is oversized |
| AgentSession.AgentSession.StartAgentSession | src/bc_launcher/controller/_agent_session.py:149-507 | Exit 0 with a prompt means probes, readiness just seen, one look at the option screen and the submission, or a refusal; exit 1 means not submitted and a diagnostic whose cause is the true one: a failed probe, an agent never seen up, or input-ready never found; before the option screen only the trust banner and dismissable panes are answered |
| SessionTrace.SubmittedEscapes | src/bc_launcher/controller/_agent_session.py:361-442 | In a submitted run every Escape answers a dismissable pane, and after the trust Enter every dismissable pane captured is answered, but for the one look at the option screen just before the submission |
| SessionTrace.SubmittedOpening | src/bc_launcher/controller/_agent_session.py:160-232 | A submitted run begins with the session, the messaging probe unless there is no DSN, the vault probe and the agent program |
| SessionTrace.SubmittedBuffers | src/bc_launcher/controller/_agent_session.py:465-500 | A submitted run streams the prompt through a buffer if and only if its UTF-8 form has more than 131072 bytes |
| SessionTrace.SubmittedOnce | src/bc_launcher/controller/_agent_session.py:465-500 | A submitted run pastes exactly once, at once followed by its last Enter |
| SessionTrace.SubmittedKeyCounts | src/bc_launcher/controller/_agent_session.py:256-500 | A submitted run presses Enter at most twice and Escape at most thirteen times |
| EnvFile.ParseEnvFile | src/bc_launcher/cli.py:92-133 | The nested loops compute the entries read one after the other, later assignments winning |
| EnvFile.CollectQuoted | src/bc_launcher/cli.py:117-127 | The inner loop joins the lines up to the first closing quote and stops behind it |
| EnvValues.LineGivesValue | src/bc_launcher/cli.py:100-132 | A line gives its value, unquoted or between two equal quotes, with white space anywhere around |
| EnvValues.UnquotedLine | src/bc_launcher/cli.py:107-132 | `KEY=value` gives the value when it does not start with a quote |
| EnvValues.QuotedLine | src/bc_launcher/cli.py:128-132 | Any text between two single or two double quotes is the value |
| EnvValues.ExportGivesValue | src/bc_launcher/cli.py:104-132 | A leading `export` changes none of this |
| EnvValues.KeylessLine | src/bc_launcher/cli.py:131-132 | A value without a key is dropped |
| EnvValues.QuoteGoesOn | src/bc_launcher/cli.py:112-127 | An open quote takes in lines up to the first closing quote, or all lines when there is none |
| EnvValues.TwoLineValue | src/bc_launcher/cli.py:117-127 | A value on two lines is joined by one newline |
| EnvFile.PaddedEntry | src/bc_launcher/cli.py:100-110 | White space around the line, the key and the value does not change what a line assigns: an unquoted value itself, a quoted one what is between the quotes |
| EnvFile.ExportedEntry | src/bc_launcher/cli.py:104-110 | Neither does a leading `export` |
| EnvFile.SkippedLine | src/bc_launcher/cli.py:100-107 | Blank lines, comments and lines without `=` assign nothing and consume one line |
| EnvValues.OneLine | src/bc_launcher/cli.py:96 | A text without line breaks is one line, an empty one none |
| EnvValues.BreakEndsLine | src/bc_launcher/cli.py:96 | Each break of `splitlines` ends a line; a carriage return and a line feed are one |
| EnvValues.SpacesAreStripped | src/bc_launcher/cli.py:100-110 | `strip` takes exactly the white space at both ends |
| EnvFile.ParseConcat | src/bc_launcher/cli.py:96-133 | Outside an open quote parsing splits over concatenation, and the later file wins |
| EnvFile.EntryRoundTrip | src/bc_launcher/cli.py:60-133 | With either quote a printed entry parses back, using exactly its lines, if and only if its value is printable |
| EnvFile.EnvFileRoundTrip | src/bc_launcher/cli.py:74-133 | Printing entries as text, each with the quote of its choice, and parsing the text gives their map back |
| WorkflowToml.MatchComplete | src/bc_launcher/fabro/settings.py:99-102 | Every line of the shape matches the pattern, in exactly one way |
| WorkflowToml.MatchSound | src/bc_launcher/fabro/settings.py:99-102 | Only lines of the shape match |
| WorkflowToml.EscapeReadsBack | src/bc_launcher/fabro/settings.py:106-109 | The escaped value reads back as a basic string if and only if it has no control character besides the tab |
| WorkflowToml.ShortEscapes | src/bc_launcher/fabro/settings.py:106-109 | The reader that the written values are checked against knows the short escapes of the standard |
| WorkflowToml.SubstituteCarriesIdentity | src/bc_launcher/fabro/settings.py:97-110 | A line that does not match is kept; a matching one keeps all but its value, which reads back as the identity |
| WorkflowToml.IdentityOnLine | src/bc_launcher/fabro/settings.py:97-110 | A `BC_NAME` line gets the BC name and a `WORK_ID` line the work id, as a TOML reader reads them; the rest of the line stays |
| WorkflowToml.IdentityInText | src/bc_launcher/fabro/settings.py:97-112 | So do the lines of the rewritten text, when neither identity holds a newline |
| WorkflowToml.RewriteKeepsLines | src/bc_launcher/fabro/settings.py:112 | When no value written holds a newline, the new lines are the rewritten lines and every non-matching one is kept |
| WorkflowToml.LineCountKeptIff | src/bc_launcher/fabro/settings.py:97-112 | The line count is kept if and only if no value written holds a newline |
| WorkflowToml.RewriteTwice | src/bc_launcher/fabro/settings.py:77-112 | When the values written first have no newline, a second rewrite overrides the first if and only if they have no double quote |
| WorkflowToml.RewriteTwiceIff | src/bc_launcher/fabro/settings.py:77-112 | For every first identity, a second one without newlines overrides it if and only if the values written first have neither newline nor double quote |

## Left out

- Docker, git, `gh`, `bd`, `fabro` and `shop-msg` are nondeterministic results with stated effects: a parsing `bd export` is exact, `bd init --from-jsonl` loads exactly the committed ids and is blocked by a configured remote with Dolt history, `bd bootstrap` never drops an issue.
- `mkdir` of a lock fails only because the entry exists, and a presence upsert always succeeds; file writes not flagged in the model succeed.
- Ids are character strings: `tr` works on bytes, so a non-ASCII character counts as one unknown character here. Lower-casing covers the ASCII letters.
- Readiness.BlockingIffDismissable: lower-casing in Python also maps a few non-ASCII characters into ASCII letters, which the model does not.
- Message texts and the `out_lines` and `err_lines` wording; the model keeps which warning or diagnostic is written and where.
- The fabro engage path of `start_agent`, the preamble of the session start, the messaging address shown to the user, and all docker command lines.
- JSON parsing: the guard reads typed records, a malformed line aborts. Shell quoting, base64 and tar.
- Deriving the issue prefix in the seed, and the git repository it builds beyond whether its commit succeeds.
- Ladder.Provisioner.Provision: that a creation with a zero exit makes the repo exist, and whether the DB opens after a bootstrap, are effects of `gh` and `bd` and part of the environment; what a seed and a heal achieve is derived from the scripts.
- Ladder.Provisioner.Provision: says nothing about issues in runs with a seed, which discards the local DB.
- AgentSession.AgentSession.TrustPhase: bounds the time of the whole phase by its pane changes; only that of a single wait is characterised exactly (`WaitTiming.IdleWaitWithin`). The same holds for `ReadyPhase`.
- The main watch loop beyond dispatches and drains: stream reading, `sleep 2`, and the server's start-up wait.
- SupervisorRounds.RoundsEmptyTheInbox: assumes that no mail arrives, every child answers its id and every lock removal works; without these the inbox need not empty.
- WorkflowToml.EscapeReadsBack: the reader refuses `\u` and `\U` escapes, which the rewrite never writes.
- WorkflowToml.RewriteTwiceIff: two identities that both hold a newline are left open; such identities are malformed anyway, and the outcome then depends on the text around them.
- Heartbeat.LiveStaysOnline: needs a positive sleep and a positive bound, which the guard does not require separately; with a zero sleep there may be no latest upsert, and the age bound itself needs only a sleep that is not negative.
- The clone proxy URL of `src/bc_launcher/agent_vault.py`: percent-encoding and splitting would only add an easy round trip.
- The warning that a failed repair prints, and the `chown` after a working one.
- Manifest loading, GitHub reachability, YAML, argument parsing, naming, networking, model tables and image selection: straight-line choices or I/O.
- `classify_presence_age` is not part of this model; the online window is a parameter.
