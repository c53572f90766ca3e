# HiveSync, modelled

HiveSync decides when and how `rclone` may change and delete files, keeps the record of what it did, and shows it live.
This project models the logic around rclone and proves what it keeps over whole histories: every interleaving of the
live-output broker, every sequence of runs of a job, every order of writes to the run table, every log, every path.

rclone itself is an oracle. A dry run and a check report what they report; a sync removes at most `--max-delete` files,
a copy removes none.

Check the project with `dafny verify dfyconfig.toml`.

| file | models |
|---|---|
| `Broker.dfy`, `BrokerProtocol.dfy` | the live-output broker as an object, and its atomic steps under every interleaving |
| `Activity.dfy` | the session's bytes and peak speed |
| `Planning.dfy` | the plan made of a dry run and a presence check |
| `DeleteBrake.dfy` | plan, veto, approval and execution over a job's whole history |
| `RunTable.dfy` | the run table and its partial unique index |
| `LiveLog.dfy` | the live log, the stored rows and the summary |
| `Watcher.dfy` | continuous mode |
| `Subpaths.dfy`, `Endpoints.dfy` | subpaths, and connection paths as rclone addresses them |
| `Slugs.dfy`, `ArchivePaths.dfy`, `Stamps.dfy` | where archives go, what is excluded, and how they are found again |
| `Redaction.dfy`, `Labels.dfy` | secrets in text, label values on the metrics page |
| `RateLimit.dfy` | the login limiter |
| `Portable.dfy` | configuration export and import |
| `Text.dfy`, `Wrappers.dfy` | string operations, `Option` and `Result` |

Objects whose methods update fields are classes (`RunBroker`, `ActivityRecorder`, `LiveRunner`, `Table`, `DryRunLog`,
`JobRun`, `ContinuousWatcher`, `Limiter`, `Session`, `Maintenance`, `Redactor`): each method is tied to a function on
values, and the claims are proved about those functions, over sequences of them.

## Properties the code does not have

Each of these is promised or assumed by the repository's comments, documentation or tests, and fails for some input.
Each is a proved statement, with the exact condition where the code does what is said of it.

- A secret is masked in every text exactly when it does not overlap the mask `***REDACTED***`; a secret with a star at
  an end can stay readable (`Redaction.MaskedExactly`, `Redaction.StarredSecretLeaks`).
- A subscriber that registers between the two locked sections of `finish`, or whose queue is full when it is told, is
  left waiting (`BrokerProtocol.MarkedExactly`, `BrokerProtocol.UntoldWaits`; `BrokerProtocol.GapLeavesWaiting` and
  `BrokerProtocol.FullQueueLeavesWaiting` are traces that end so).
- A run id can be used again, because a quiet cycle's row is deleted and the database gives its id out again
  (`RunTable.QuietCycleIdIsReused`). Whoever subscribes to such a run while the id is still remembered as finished is
  not registered: it is shown what was said so far and gets nothing more (`BrokerProtocol.JoinIsExactly`,
  `BrokerProtocol.LateSeesOldLines`, `BrokerProtocol.ReusedIdIsSilent`). Only 500 other ends make the broker forget the
  id (`BrokerProtocol.ForgottenOnlyByOthers`). And someone still waiting for the first run gets the lines and the end
  of the next one (`BrokerProtocol.NextRunEndsIt`).
- A full queue does not always lose its oldest event: the new one can be given up instead. That happens in exactly two
  ways (`BrokerProtocol.LossesExactly`; every other event is put, `BrokerProtocol.EveryEventIsOfferedOnce`). Either the
  reader takes all 500 items between the failed put and the drop, for which no `finish` is needed
  (`BrokerProtocol.NothingToDropExactly`, `BrokerProtocol.DrainLosesTheNewest`). Or an end marker takes the last slot,
  which was just made for the event, and the reader takes nothing before the second attempt
  (`BrokerProtocol.SlotGoneExactly`, `BrokerProtocol.ClashLosesTheNewest`); a row is deleted before its worker calls
  `finish`, so the next run under the id can publish meanwhile.
- A subscriber that was told can lose its end marker again: a later run under the id drops it as the oldest item of a
  full queue (`BrokerProtocol.MarkerExactly`, `BrokerProtocol.DroppedMarkLeavesWaiting`).
- `default_base` has an archive for a whole remote, and for a top-level directory addressed from the root, that
  `plan_for` refuses (`ArchivePaths.DefaultIsAccepted`, `Endpoints.DefaultForEndpoint`). The comment in
  `default_base` says that an absolute path has a sibling.
- A login limit is kept on every window exactly when the lockout is at most the seven days failures are kept
  (`RateLimit.LimitHoldsExactly`).
- An import in a session that does not flush before a query, as the application's sessions are set up
  (app/db.py:52-53), does not link a job to a preset from the same file (`Portable.RoundTripExactly`,
  `Portable.CustomPresetIsLost`). It warns, but with a text that says the preset is not in the file.
- A worker that starts a cancelled row is refused by the index exactly when the job has another active run
  (`RunTable.StartFailsExactly`).
- Stored rows agree with the summary exactly up to the cap of 5000 (`LiveLog.RowsMatchSummary`).
- A directory laid out like a stamp whose name is no date (`Stamps.ImpostorExactly`) stops the whole maintenance pass,
  for every job, its logs and its run history (`Stamps.Maintenance.RunPass`).
- A continuous job is not always looked at with its interval in between: when starting its cycle raises, the next tick
  considers it again (`Watcher.OnlyRaisingRetries`).

## Model

| member | source | states |
|---|---|---|
| BrokerProtocol.HandoverIsExact | app/jobs/events.py:66-151 | under every interleaving, with ids finished and used again at any time, a live subscriber whose queue never filled has yielded, or still has to come, exactly the last 200 lines and last report kept when it joined and then every later event, in order, nothing lost or doubled |
| BrokerProtocol.JoinIsExactly | app/jobs/events.py:121-151 | a subscriber is registered exactly when the id is not remembered as finished; without losses it gets the exact handover, whatever follows, exactly then, or when nothing more is said under the id |
| BrokerProtocol.LateSeesOldLines | app/jobs/events.py:127-136 | joining a remembered id shows the lines published since the backlog was last released, nothing exactly when there are none, and never anything more |
| BrokerProtocol.ForgottenOnlyByOthers | app/jobs/events.py:104-110 | an id newly remembered as finished is forgotten only after 500 more ends |
| BrokerProtocol.HandoverWithLosses | app/jobs/events.py:77-96 | with a queue that fills, what it saw and what is on its way are part of what it is owed, in order; at most 500 are queued; what is on its way is the newest part, unless an event was given up for want of a slot |
| BrokerProtocol.EveryEventIsOfferedOnce | app/jobs/events.py:83-96 | every event published since a live subscriber joined was put into its queue once, or given up once, or is the one on its way |
| BrokerProtocol.LossesExactly | app/jobs/events.py:83-96 | an event is given up exactly where the thread finds an empty queue at the drop, or no slot at the second attempt |
| BrokerProtocol.ServeOutcome | app/jobs/events.py:83-96 | a turn ends with the event behind the queue as it was, or given up with the queue as it was, and otherwise goes on to its next operation |
| BrokerProtocol.SlotGoneExactly | app/jobs/events.py:83-103 | at the second attempt there is no slot exactly if an end marker was put at 499 items meanwhile and the reader has taken nothing since |
| BrokerProtocol.NothingToDropExactly | app/jobs/events.py:88-96 | at the drop the queue is the full one less what the reader took, plus any markers; so it is empty exactly if the reader took all 500 and the markers |
| BrokerProtocol.ClosedHasEverything | app/jobs/events.py:138-151 | a subscriber whose stream ended, and whose queue never filled, yielded everything published when it was told, save an event then on its way to it |
| BrokerProtocol.MarkedExactly | app/jobs/events.py:98-110 | once a run that stopped publishing has ended, a waiting subscriber was told exactly if it subscribed before the first locked section, and has its end marker exactly if its queue then held fewer than 500 items |
| BrokerProtocol.MarkerExactly | app/jobs/events.py:83-110 | whatever is published and finished meanwhile, a live subscriber has an end marker exactly if it was told with fewer than 500 items queued and the last marker was not dropped since |
| BrokerProtocol.FinishTellsTheRegistered | app/jobs/events.py:98-103 | from the first locked section on, those registered then are still to be told or have been, and nobody else |
| BrokerProtocol.MarkedDrains | app/jobs/events.py:138-160 | a subscriber with a marker in its queue reaches its end by reading alone, in as many reads as there are items up to it |
| BrokerProtocol.UntoldWaits | app/jobs/events.py:98-160 | one that was not told stays live through every later sequence of steps until it disconnects or the id is finished again |
| BrokerProtocol.CleanUpExactly | app/jobs/events.py:138-160 | once a subscriber whose stream ended, or that left, has cleaned up it is in no list; the others of its id stay in order, and the id's entry goes with the last of them |
| BrokerProtocol.LiveIsRegistered | app/jobs/events.py:121-160 | after every trace a live subscriber is in its id's list |
| BrokerProtocol.GapLeavesWaiting | app/jobs/events.py:98-110 | subscribing between the two sections of `finish` leaves a subscriber waiting |
| BrokerProtocol.FullQueueLeavesWaiting | app/jobs/events.py:101-103 | so does a queue that is full when it is told |
| BrokerProtocol.ReusedIdIsSilent | app/jobs/events.py:121-136 | a trace on which a subscriber to a reused id is shown the first line and misses the second |
| BrokerProtocol.NextRunEndsIt | app/jobs/events.py:98-151 | a trace on which a subscriber left waiting gets the next run's line and its end |
| BrokerProtocol.ClashLosesTheNewest | app/jobs/events.py:83-102 | a trace on which the newest event is lost with 499 older ones still queued |
| BrokerProtocol.DrainLosesTheNewest | app/jobs/events.py:83-96 | a trace without any `finish` on which the reader drains the queue and the event is lost, though nothing older is and the next one arrives |
| BrokerProtocol.DroppedMarkLeavesWaiting | app/jobs/events.py:83-103 | a trace on which a told subscriber's marker is dropped by 500 later lines and it waits |
| BrokerProtocol.LinesOfContext | app/jobs/events.py:66-82 | progress reports never push a line out of the 200 replayed |
| Broker.LastNIsNewest | app/jobs/events.py:66-110 | what is kept of the lines, and of the finished ids, is the newest of them |
| BrokerProtocol.Reachable | app/jobs/events.py:45-160 | every trace of publishing, finishing and reading steps keeps the invariant on backlog, registrations, queues, markers and what each subscriber is owed |
| BrokerProtocol.ServingDelivers | app/jobs/events.py:83-96 | the object's uninterrupted publish is the protocol's put, drop and retry steps in a row |
| BrokerProtocol.TellingMarks | app/jobs/events.py:98-110 | the object's uninterrupted finish is the protocol's tell steps in a row and the second locked section |
| Broker.RunBroker.Publish | app/jobs/events.py:66-96 | a report replaces the last one, anything else joins the newest 200 lines, and the event is delivered to every registered queue, dropping the oldest of a full one |
| Broker.RunBroker.Finish | app/jobs/events.py:98-110 | an end marker in every queue with room, the backlog forgotten, at most 500 finished runs remembered |
| Broker.RunBroker.Subscribe | app/jobs/events.py:121-136 | what is replayed, and that a finished run registers no queue |
| Broker.RunBroker.Unsubscribe | app/jobs/events.py:152-160 | exactly the one channel is removed and the others stay in order; the run's entry is there only while it has a channel |
| Broker.RunBroker.BacklogFor | app/jobs/events.py:112-119 | the retained lines, or none |
| Activity.CountersFollow | app/jobs/events.py:192-257 | the two tables always belong to exactly the active runs and hold each one's last figure; idle means a session of zero |
| Activity.RecordAddsDifference | app/jobs/events.py:200-219 | a report adds what its run moved since its last report: all of it, if the id is new or was forgotten meanwhile; nothing, if the figure fell; also after a reset |
| Activity.SessionIsConserved | app/jobs/events.py:192-281 | session bytes are the sum, over the ids that reported since the last reset or idle point, of the figures each was forgotten with and its figure now, minus the figure the session began with, and what figures fell by in between is not taken off; ids may be used again |
| Activity.PeakIsMaximum | app/jobs/events.py:200-281 | the peak is the greatest combined speed at any report of the session |
| Activity.LatestIsLastReport | app/jobs/events.py:200-231 | a run's entry is its last report since it was last forgotten, speed included |
| Activity.SamplesExactly | app/jobs/events.py:200-244 | the chart holds the last 720 points, one for each report and each run that left, with the combined speed of those still active |
| Activity.ActivityRecorder.RecordStats | app/jobs/events.py:200-219 | the new state of every field after a report |
| Activity.ActivityRecorder.ForgetRun | app/jobs/events.py:221-244 | the new state after a run leaves, and the reset when it was the last |
| Activity.ActivityRecorder.ResetSession | app/jobs/events.py:259-273 | the new state after a reset: baselines are the figures reported last |
| Planning.Reconcile | app/engines/rclone.py:386-428 | the plan is the one the presence report and the dry run determine: changes in path order, counts, bytes and summarised errors |
| Planning.PlanListsExactly | app/engines/rclone.py:386-428 | a change is listed exactly when it was announced: a copied path as new or updated by the presence check, a path that goes as deleted, both with the size reported last, and what could not be compared; each once, by kind and path |
| Planning.PlanFigures | app/engines/rclone.py:425-428 | the destination's count is that of the three categories found there, errors are summarised, and a plan that met the delete limit is marked as cut short |
| Planning.SummaryIsBounded | app/engines/parsers.py:236-242 | a summary holds every distinct nonempty line once, up to 20; otherwise the first 20 and a line for the rest |
| Planning.SummaryCounts | app/engines/parsers.py:236-242 | the summary is the distinct lines in order of appearance, or the first 20 and a line with the number of the rest |
| Planning.DistinctLinesGrow | app/engines/parsers.py:236-242 | lines stay in the order in which they first appear |
| Planning.PlanPartitions | app/engines/rclone.py:386-428 | new is copied and missing on the destination; new and updated are the distinct copied paths; deleted the distinct removals; unchanged and copied-and-present are the source's files |
| Planning.PlanIsUnique | app/engines/rclone.py:386-428 | presence and log determine one plan |
| Planning.PlanBytes | app/engines/rclone.py:398-420 | bytes are the sum over distinct paths of the size reported last |
| Planning.ByPathIsLast | app/engines/rclone.py:386-400 | the last report of a path wins |
| Planning.DestFileCountIsSum | app/engines/parsers.py:185-200 | with disjoint check categories the destination's count is the sum of three of them |
| DeleteBrake.ResolvedIsLeast | app/engines/rclone.py:278-288 | the resolved brake is the least count, at least one, not below the percentage |
| DeleteBrake.ResolvedGrows | app/engines/rclone.py:278-288 | a larger destination never has a smaller brake |
| DeleteBrake.LiveRunner.ExecuteOneWay | app/jobs/runner.py:377-468 | one run appends exactly one record, of the job, its approval and what it was told: refused plainly exactly when the sentinel is set, the source local and the file missing; for its count exactly when otherwise more removals are planned than approved or, without an approval, than the brake allows; else executed with exactly that limit, as a copy exactly when the job deletes nothing, unless it cannot be set up |
| DeleteBrake.OneWayEnds | app/jobs/runner.py:377-468 | the same of every one-way run, approved or not, whatever rclone reports |
| DeleteBrake.HistoriesAreSafe | app/jobs/runner.py:228-468 | every history of edits, outside changes, runs and approvals keeps: every run, one-way or two-way, is refused or executed exactly as its plan, brake, approval and sentinel say; approvals carry an earlier refusal's count; refusals change nothing; executions stay within the brake or the approved count |
| DeleteBrake.EveryRunIsRecorded | app/jobs/runner.py:228-468 | every run of a history leaves one record that stays, of the job as it then was and the destination before and after; edits and outside changes leave none |
| DeleteBrake.RemovalsAreBounded | app/jobs/runner.py:377-468 | an executed one-way run removes at most max(1, ceil(pct n / 100)) files, or a count refused earlier and approved |
| DeleteBrake.RefusedCountsIncrease | app/web/__init__.py:1146-1179 | along a chain of approvals refused counts strictly increase |
| DeleteBrake.ApprovalPassesExactly | app/jobs/runner.py:411-468 | an approved run is refused for its count exactly when more deletions are planned than were approved; an unchanged plan executes |
| DeleteBrake.RefusalsChangeNothing | app/jobs/runner.py:440-468 | refused runs leave the destination alone; a copy-only job is never refused for a count and removes nothing |
| RunTable.AtMostOneActive | app/models/job.py:245-258 | every sequence of writes leaves each job at most one queued or running row |
| RunTable.OnlyCreateAndStartCanFail | app/jobs/planner.py:79-95 | only creating and starting a run can be refused by the index; every other write goes through as written |
| RunTable.SkippedAreCollisions | app/jobs/scheduler.py:179-220 | over every history, the skipped rows of a job and those taken out again are exactly the fires that found its previous run active |
| RunTable.OnlyPruningDrops | app/jobs/retention.py:227-251 | only history pruning and deleting the job take skipped rows out |
| RunTable.CreateConflictsExactly | app/jobs/planner.py:79-95 | creating conflicts exactly when the job has an active run |
| RunTable.StartFailsExactly | app/jobs/runner.py:181-195 | a worker's start is refused exactly when its row is no longer active and the job has another that is |
| RunTable.CollisionsLeave | app/jobs/scheduler.py:179-220 | a colliding fire adds exactly one skipped row, any other colliding creation none |
| RunTable.PruningKeepsNewest | app/jobs/retention.py:227-251 | pruning keeps every active row and exactly the newest N finished ones of each job |
| RunTable.RestartReleases | app/main.py:71-103 | a restart leaves no active row, no finished row changed, and every job free to run |
| RunTable.FinishedRowsAreFinal | app/jobs/runner.py:181-216 | a finished row is rewritten only through its own late start, and removed only by pruning or with its job |
| RunTable.QuietCycleIdIsReused | app/jobs/runner.py:891-908 | a quiet cycle leaves the table as it was, its id included |
| RunTable.Table.CreateRun | app/jobs/planner.py:79-95 | a queued row with the next id or, exactly when the job has an active run, a conflict and an unchanged table |
| RunTable.Table.FireJob | app/jobs/scheduler.py:179-220 | a fire of an enabled job leaves one queued row, or exactly when the job has an active run one skipped row with the time; of a disabled one nothing |
| RunTable.Table.StartRun | app/jobs/runner.py:181-195 | the row becomes running, or the table stays when the index refuses it |
| RunTable.Table.FinishRun | app/jobs/runner.py:623-730 | status, time and counts of the end are written into the row, and nothing else |
| RunTable.Table.CancelRun | app/web/__init__.py:1182-1192 | an active row becomes cancelled, no other changes |
| RunTable.Table.PruneQuietCycle | app/jobs/runner.py:891-908 | a quiet continuous cycle's row goes, no other |
| RunTable.Table.RemoveJob | app/web/__init__.py:1677-1700 | a job's rows go with it, refused by the form while one is active |
| RunTable.Table.PruneRuns | app/jobs/retention.py:227-251 | the loop over jobs removes what history pruning removes of all of them, and counts it |
| RunTable.Table.ReleaseInterrupted | app/main.py:71-103 | exactly the queued and running rows become failed, with the time and at least one error |
| LiveLog.AccountsAgree | app/engines/parsers.py:86-116 | copies split into created and replaced, removals into deleted and archived, as multisets, for every log |
| LiveLog.OperationsAreLines | app/jobs/runner.py:494-611 | the copies, deletions and archivings of a log are exactly those its lines report, each once, in order, with file, size and whether it was new |
| LiveLog.ErrorsAreLines | app/jobs/runner.py:494-611 | the errors are those of its error lines, in order, after the file's name; the delete limit was hit exactly when one says so; the progress is the last report's |
| LiveLog.PeakIsGreatest | app/jobs/runner.py:494-611 | a file's peak is the greatest positive speed any report gave for it, and absent when none did |
| LiveLog.RowsMatchSummary | app/jobs/runner.py:623-743 | a one-way run's rows tally per action to its summary exactly when it has at most 5000 operations |
| LiveLog.StoredRowsExactly | app/jobs/runner.py:623-675 | the rows are the first 5000 of the copies and then the removals, in order, each with its action, size and measured peak speed |
| LiveLog.SizeSumConcat | app/jobs/runner.py:614-620 | without rclone's figure the bytes are the sizes added up, a missing one as nothing, in any grouping |
| LiveLog.DryRunLog.Absorb | app/jobs/runner.py:494-611 | one line's effect on every field of the log |
| LiveLog.DryRunLog.Consume | app/jobs/runner.py:471-491 | the log after a whole output is that of its lines in order, and which lines reach the live pane |
| LiveLog.JobRun.Record | app/jobs/runner.py:614-743 | success exactly for an uncancelled run with exit code 0, cancelled exactly if it was or the code is that of a signal, failed otherwise; every count; rclone's byte count or else the sum of the sizes; and every summary entry against plan and log, `applied as planned` exactly for a success with as many copies and removals as planned |
| Watcher.ContinuousWatcher.DoTick | app/jobs/watcher.py:146-203 | a tick looks at its jobs up to the first whose start raises; each entry follows from its own alone, the others stay, and the runs started are those due without conflict |
| Watcher.ContinuousWatcher.RunTicks | app/jobs/watcher.py:137-186 | ticks in a row make a run as the lemmas on whole runs speak of it; at the end both tables hold the same jobs, and exactly those last listed if no exception cut the tick short |
| Watcher.StartedRunsExactly | app/jobs/watcher.py:161-186 | the runs a tick starts are exactly those created for the due jobs it gets to, one each |
| Watcher.StartedExactly | app/jobs/watcher.py:168-178 | over whole runs the time remembered for a job's last cycle is the clock at the tick that last considered it; there is none exactly when no tick did |
| Watcher.ConsideredExactly | app/jobs/watcher.py:161-184 | a tick considers a job exactly when the interval chosen by the last cycle whose start did not raise is over |
| Watcher.BackoffIsExponential | app/jobs/watcher.py:60-76 | with fixed settings the interval is min(ceiling, floor times two to the number of quiet cycles since the last change, a change being a run that finished since the cycle before was started) |
| Watcher.IntervalFollows | app/jobs/watcher.py:60-76 | whatever is edited meanwhile, the next interval is the floor after a change and otherwise twice the last, kept within the bounds in force |
| Watcher.CyclesAreSpaced | app/jobs/watcher.py:161-184 | two considered cycles of a watched job are at least the first one's interval, hence five seconds, apart, unless starting the first raised |
| Watcher.OnlyRaisingRetries | app/jobs/watcher.py:174-184 | with a clock that does not go back, the next look before the interval is over considers the job exactly if starting its cycle raised |
| Watcher.IntervalWithinBounds | app/jobs/watcher.py:60-76 | whatever is edited meanwhile, an interval lies between the bounds in force when it was chosen |
| Watcher.JobsAreIndependent | app/jobs/watcher.py:146-186 | over whole runs a job's entry is what it would be if watched alone on the ticks that get to it, starting afresh when watched again |
| Watcher.ChangedExactlyWhenKept | app/jobs/watcher.py:205-226 | an ended cycle counts as changed exactly when it is worth keeping, which is when its row survived, whatever other jobs do meanwhile, and through history pruning that spares its newest row |
| Watcher.UnfinishedCountsAsQuiet | app/jobs/watcher.py:205-226 | a cycle still at work counts as quiet |
| Subpaths.JoinSubpath | app/engines/rcloneconf.py:202-227 | refused exactly when a component is `..`; otherwise the base extended by the components that lead somewhere |
| Subpaths.JoinComposes | app/engines/rcloneconf.py:202-227 | joining in two steps is joining once, refusals included |
| Subpaths.JoinExtends | app/engines/rcloneconf.py:202-227 | the result's components are the base's followed by the subpath's, so it never leaves the base |
| Subpaths.InsideIsPrefix | app/jobs/archive.py:148-158 | the string test for "inside" is the prefix order on components |
| Endpoints.AbsoluteExactly | app/engines/rcloneconf.py:155-227 | a resolved path is absolute exactly when its connection is rooted, whatever the subpath |
| Endpoints.EndpointNames | app/engines/rcloneconf.py:155-227 | a path has the names of the share, the base path and the subpath, in this order; refused exactly for a missing share or a subpath that walks up |
| Endpoints.DefaultForEndpoint | app/engines/rcloneconf.py:155-242 | which endpoints get a default archive that is accepted; a share always does |
| Endpoints.RetentionFindsEndpoint | app/jobs/retention.py:111-132 | for a rooted endpoint retention looks in the parent of what the runner writes |
| Slugs.SlugifyYieldsSlug | app/jobs/archive.py:49-59 | every job name becomes a nonempty lower-case element without pairs of dots or dashes and with neither at an end |
| Slugs.SlugsAreFixed | app/jobs/archive.py:49-59 | the names that slugify to themselves are exactly the slugs |
| Slugs.SlugKeepsWords | app/jobs/archive.py:49-59 | a slug has the name's words, lower-cased and in order, none joined or split; a name without words becomes `job` |
| Slugs.SlugIsOneElement | app/jobs/archive.py:49-59 | a slug is one path element and not `.` or `..` |
| ArchivePaths.SplitJoined | app/jobs/archive.py:62-97 | splitting a reattached alias off gives the alias and the path back |
| ArchivePaths.SplitExactly | app/jobs/archive.py:62-71 | a spec splits exactly at a first colon behind two or more safe characters, if no newline follows but one at the end, which is dropped |
| ArchivePaths.DefaultKeepsRemote | app/jobs/archive.py:100-129 | the default keeps the destination's remote, whatever the destination looks like |
| ArchivePaths.DefaultBaseIsSound | app/jobs/archive.py:100-158 | the default is never the destination, never contains it, and lies inside it exactly in the two child cases |
| ArchivePaths.SiblingIsDisjoint | app/jobs/archive.py:100-158 | beside the destination, no path lies under both |
| ArchivePaths.InsideExactly | app/jobs/archive.py:148-158 | inside means the same remote and, by components, at or below the destination |
| ArchivePaths.ChosenBaseIsRead | app/jobs/archive.py:132-145 | a chosen base keeps the remote it names, and otherwise is a path on the destination's |
| ArchivePaths.RefusedExactly | app/jobs/archive.py:186-246 | a job is refused exactly for another remote, another share, or the destination itself, and for which of them |
| ArchivePaths.PlanIsExact | app/jobs/archive.py:220-246 | an accepted plan has an exclude exactly when its base lies inside the destination, a suffix exactly in the flat layout, and the run's own directory in the other |
| ArchivePaths.DefaultIsAccepted | app/jobs/archive.py:186-246 | without a chosen base a run is planned exactly for a local path, a path with an inner slash, or a nonempty relative element |
| ArchivePaths.ExcludeIsExact | app/jobs/archive.py:148-183 | refused exactly when the trimmed paths coincide, absent exactly when outside, otherwise anchored on what lies between destination and archive |
| ArchivePaths.ExcludeHidesTheArchive | app/jobs/archive.py:161-183 | the pattern matches exactly the paths below the archive, for a relative path free of glob characters |
| ArchivePaths.ArchivedIsExcluded | app/jobs/archive.py:161-246 | a run whose base lies inside its destination has an exclude, and it hides every file the run archives, in both layouts |
| ArchivePaths.BackupSplits | app/jobs/archive.py:220-246 | a run's directory is on the destination's connection, below the base's path |
| ArchivePaths.StoredPathReattaches | app/jobs/restore.py:100-117 | the stored path with the alias put back is the directory the run wrote to |
| ArchivePaths.RetentionLooksWhereRunsWrite | app/jobs/retention.py:111-132 | whenever both accept a job, retention's directory is the parent of every directory the runner writes |
| Stamps.WrittenIsRead | app/jobs/archive.py:226-226 | every stamp written is recognised, and reads back to the same second |
| Stamps.ReadIsWritten | app/jobs/retention.py:45-48 | only a name a run would write reads as a moment |
| Stamps.NamesSortByAge | app/jobs/retention.py:131-131 | directory names sort by time |
| Stamps.CalendarIsGregorian | app/jobs/retention.py:136-136 | the dates a name can hold are those of the Gregorian calendar |
| Stamps.PlanRemovals | app/jobs/retention.py:129-140 | the plan is made exactly when no directory has an impossible date, and lists the aged ones and their size |
| Stamps.TotalSizeConcat | app/jobs/retention.py:137-139 | the bytes a plan frees are the sizes of its directories added up, in any grouping |
| Stamps.RemovedExactly | app/jobs/retention.py:129-140 | a directory is planned exactly when a run wrote it before the cutoff |
| Stamps.AgedByName | app/jobs/retention.py:129-140 | too old means: sorts before the cutoff's name, or is that name and the cutoff lies past the second |
| Stamps.ImpostorExactly | app/jobs/retention.py:45-48 | a name laid out like a stamp stops the plan exactly when it is no moment's |
| Stamps.NewlineIsImpostor | app/jobs/retention.py:45-48 | a run's name with a newline behind it passes the pattern and is no moment's |
| Stamps.AgedOutExactly | app/jobs/retention.py:88-127 | a job is pruned exactly when it archives, by timestamp, with a retention other than zero, into an accepted rooted directory that is there |
| Stamps.PlanJobs | app/jobs/retention.py:259-264 | all jobs are planned exactly when none of those that are pruned has an impossible date |
| Stamps.Maintenance.RunPass | app/jobs/retention.py:267-280 | one impossible date in any pruned job and the pass changes nothing at all; otherwise each job loses exactly its own plan |
| Stamps.PassRemovesExactly | app/jobs/retention.py:88-140 | after a pass exactly the aged run directories of jobs that archive locally, by timestamp and with a retention are gone |
| Redaction.Redactor.Redact | app/crypto.py:151-175 | the method's loop is the replacement of all values, longest first |
| Redaction.MaskedExactly | app/crypto.py:136-175 | a secret is absent from every redacted text, whatever the other secrets, exactly when it does not overlap the mask |
| Redaction.OverlapNeedsStar | app/crypto.py:136-148 | a secret that overlaps the mask has a star in it or is a part of the mask |
| Redaction.RedactComplete | app/crypto.py:172-175 | with no overlapping secret all are gone, and redacting again changes nothing |
| Redaction.RedactSecretFree | app/crypto.py:172-175 | a text without secrets is unchanged |
| Redaction.ReplaceKeepsAbsent | app/crypto.py:172-175 | a later replacement never recreates a value that was gone |
| Redaction.StarredSecretLeaks | app/crypto.py:136-175 | a secret and a text for which the secret stays readable |
| Labels.EscapeIsOnePass | app/metrics.py:31-33 | the three ordered replaces escape every character exactly once |
| Labels.ValueReadsBack | app/metrics.py:31-33 | an escaped value between quotes reads back as itself, whatever follows |
| Labels.EscapeIsInjective | app/metrics.py:31-33 | distinct values escape to distinct texts |
| Labels.NothingUnescaped | app/metrics.py:31-33 | no newline survives, and every quote has a backslash before it |
| Labels.LabelsReadBack | app/metrics.py:36-40 | a rendered label set reads back as exactly its pairs |
| Labels.RenderIsInjective | app/metrics.py:36-40 | two label sets render alike exactly when they are equal |
| RateLimit.Limiter.Check | app/ratelimit.py:85-110 | allowed exactly when neither scope blocks; a refusal asks for at least a second |
| RateLimit.Limiter.SignIn | app/api/auth.py:127-147 | the table after a login, and that a refused one leaves it alone, right password or not |
| RateLimit.AllowedExactly | app/ratelimit.py:85-110 | on every run a login is let through exactly when neither its username nor its address has as many failures in the window as the limit, swept ones included |
| RateLimit.NoWindowOverflows | app/ratelimit.py:85-123 | over every sequence of logins no window of the lockout's length holds more failures of a username or address than the limit, swept ones included |
| RateLimit.LimitHoldsExactly | app/ratelimit.py:31-33 | that holds on every run exactly when the lockout is at most seven days |
| RateLimit.LockLiftsExactly | app/ratelimit.py:99-108 | a lockout ends exactly when the oldest failure it counted is past the window, and refused attempts do not extend it |
| RateLimit.WaitIsEnough | app/ratelimit.py:107-108 | a second more than the reported wait always suffices for the scope that refused |
| RateLimit.WaitIsNeeded | app/ratelimit.py:107-109 | a reported wait of more than a second is never too long: the scope still blocks when it ends |
| RateLimit.RefusalsCanBeDropped | app/api/auth.py:127-141 | a run without its refused logins gives the same table and the same answers to the rest |
| RateLimit.FirstAttemptIsAllowed | app/ratelimit.py:92-99 | whatever the limit, an attempt without a failure in its window is let through |
| RateLimit.RunIsSound | app/ratelimit.py:113-141 | after every login the swept table and the full record agree on every window that can still be asked for |
| Portable.Session.ImportDocument | app/portable.py:161-202 | the store after an import, rolled back exactly when a new connection has no type; otherwise a report that counts every connection and job entry as created, skipped or an error, lists the warnings, and says the preferences were applied exactly when there were any and they were valid laid over those in force |
| Portable.Session.ImportJobs | app/portable.py:258-308 | the loop adds the jobs with a new name and both connections, and warns of every preset it cannot link |
| Portable.ImportIsAdditive | app/portable.py:161-202 | what was there keeps every column, and excluded preferences keep their values |
| Portable.PreferencesExactly | app/portable.py:311-326 | when the import goes through and the file's preferences are valid laid over those in force, every key of the file that is not the deployment's has the file's value and every other key keeps its own; otherwise all stay |
| Portable.AddedExactly | app/portable.py:205-308 | exactly the entries with a name, their links and no earlier row or entry of that name become rows, in order, with their warnings; the rest are skipped if the name is taken and errors if not |
| Portable.ConnectionIsRead | app/portable.py:216-256 | a connection has its own columns, else the import's, else the defaults, and is linked to the credential of that name or asks for it |
| Portable.JobIsRead | app/portable.py:258-308 | a job is complete exactly when both connections are there, linked to the presets that can be seen, and warned about each other one |
| Portable.AbortsExactly | app/portable.py:161-202 | an import aborts exactly when one of the connections it would create has no type |
| Portable.ImportKeepsSound | app/portable.py:258-308 | names stay unique and no created row has a dangling link |
| Portable.ImportIsIdempotent | app/portable.py:161-202 | importing a document again changes nothing and creates nothing |
| Portable.Export | app/portable.py:109-158 | a document that lists every connection, job and custom preset once, by name and in order |
| Portable.RoundTripExactly | app/portable.py:109-326 | export and import into a newly set up store reproduce presets; connections exactly when their credentials exist; jobs exactly when the session autoflushes or no job uses a custom preset; preferences but the deployment's exactly when they are valid there or were the same |
| Portable.CustomPresetIsLost | app/portable.py:180-186 | a complete document whose job arrives without its preset in a session that does not autoflush, and with it in one that does |

## Left out

- rclone, its subprocess, signals, output decoding and the text of its log lines: log records are taken as decoded, and
  its promises about `--max-delete` and `copy` are assumptions of the history model.
- Two-way execution: only its pre-flight is modelled; the percentage rclone enforces itself and the archiving of
  two-way runs, whose operations are recorded twice, are not.
- Exceptions other than the listed ones in a worker, which leave a row running until the restart that is modelled.
- Two threads publishing, or two finishing, under one id at the same moment; one of each at a time is modelled, in any
  order and overlap.
- Exceptions in a tick other than those of starting a cycle, such as a query that fails.
- Portable.Session.ImportDocument: other values that a column refuses, such as a type that is none of the known ones,
  and which abort the import at its flush or commit as a missing type does.
- Heartbeats of a subscription and the waiting itself: a read of an empty queue is no step.
- Floating point: speeds are exact reals, intervals whole seconds, and the percentage is rounded up exactly.
- Strings are sequences of characters with ASCII white space, lower case and digits; Unicode classes are not modelled.
- Overlap of a base the operator chose above the destination, which gets no exclude.
- Glob classes and alternatives in exclude patterns, and relative archive paths with glob characters.
- Watcher.ChangedExactlyWhenKept: a restart, and history pruning that keeps nothing or meets a newer finished row of
  the job, are not among the later steps, because they end or remove runs of the job for reasons of their own.
- Directories that cannot be removed, which a pass reports and leaves, and two jobs whose names share one directory.
- Years below 1000, which the C library may format with fewer digits.
- Document entries of the wrong JSON type, and a job that lists a preset twice.
- Preferences validation is a parameter of the import, and what it accepts is stored as given: that it trims a time
  zone's name and drops keys it does not know is not modelled.
- The redacted environment and command line, which apply the modelled redaction to each entry, and values shorter than
  four characters, which the redactor never holds.
- Filters, comparison and performance arguments, capabilities, notifications, log pruning, thread pool resizing.
- Routes, forms, sessions, password hashing, encryption, migrations, schedules and time zones.
