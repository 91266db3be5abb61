# GeoTruth verification

GeoTruth tracks objects that report positions, computes which areas they enter and leave, and records
every accepted command in a durable event stream. This project models three of its parts in Dafny and
proves what they promise.

**The command pipeline and its log.** A dispatcher keeps one mailbox per object and hands geometry work
to region workers over bounded channels; a pool of publishers appends a commit event and then its
geofence projections, retrying when acknowledgements are lost; a boot rebuilds the state from the last
event of each subject and repairs missing projections; an offline tool deletes old events one at a time.
`ObjectMachine` is the life of one object as a transition system (commands, worker sections, publish attempts,
crashes, repair, boot). `ObjectInvariant` and `ObjectSteps` prove its invariant, `ObjectLog`,
`ObjectRefinement`, `ObjectAnswers` and `ObjectGeofence` what holds of its log, answers and inside snapshots,
`ObjectRuns` the results over whole runs, and `ObjectFolds` exactly when the geofence transitions replay, with
two runs in `ReplayWitness` that show how they fail to. `Refusals` and `AnswerCauses` say which commands are
refused and why, `ObjectEffects` that commits and stored events say what was asked and what was so.
`Pipeline` is the complete system with all objects, channels and one shared stream; `PipelineRuns` and
`PipelineTheorems` prove that it moves every object only by steps of its own machine, so that the results for
one object hold under every interleaving, and that it does not deadlock below a bound, which `DeadlockWitness`
shows to be exact; `Quiescence` proves that below it the system comes to rest. The code's own form is in the
classes of `Dispatcher`, `Workers`, `Publisher`, `Recovery` and `Ops`: their methods update fields in place and
are proved to do what the machine's functions say. `Compaction` and `CompactionOrder` say which deletions are
safe and what a completed compaction leaves.

**The plane geometry and the queries.** Coordinates are real numbers; a rotation is a pair with
cos² + sin² = 1. Ear clipping by in-place rotation (`EarClipping`, `Triangulation`), the even-odd rule
(`EvenOdd`) and where it changes (`Boundaries`), the triangles as a tiling of the polygon (`Interiors`),
which side of the edges the inside is on (`Orientations`), the two ears of every simple polygon (`EarsExist`),
separating axes (`SeparatingAxis`, `AxesSuffice`), clamped distances (`OrientedBox`, `Segments`), the simple
polygon check (`Polygons`), branch and bound for label points (`LabelDistances`, `Polylabel`), the id index
beside a bag of rectangles (`SpatialIndex`), and on top of them a region's geofence computation and queries
(`Regions`, `Queries`).

**The subject trie and the filters of the stream consumer.** Patterns are token sequences with their
spelling as strings (`Subjects`), the trie is linked nodes updated in place (`SubjectTrie`), and the
subscription tables are in `Consumer`.

Assumptions. A publish attempt stores its message before it returns or never; an acknowledgement implies that
it was stored. A commit fails only because its context is cancelled, which is the end of the process and
modelled as a crash (`internal/gtevents/publisher.go:221-225`). The machine works with structured event ids
and assumes that a new instance id is fresh for its object; `EventIds` proves exactly when rendered ids are
equal and when two boots can issue the same one. The external R-tree is a bag that returns exactly the
intersecting rectangles.

Where the code and its comments differ, the code is followed:

- The branch that moves an inside snapshot to the new region tests the kind of the caller's command, which
  is never a transition (`internal/engine/dispatcher.go:251`), so a change of region leaves the old snapshot
  behind. `Config.taskKind` selects the code's test or the intended one; with the intended one no snapshot is
  left behind.
- `RemoveArea` erases an area from the snapshots without exit events (`internal/engine/engine.go:178-187`).
  Together with the snapshots left behind it makes transitions fail to replay; `ObjectFolds` states exactly when.
- The plan check of the compaction looks at each entry alone, not at the order
  (`pkg/geotruthops/ops.go:253-268`); `CompactionOrder` states which accepted plans are safe.
- The comment on event ids says that object and area ids without dots can be used in them directly
  (`internal/gtevents/ids.go:16-17`). They may hold colons, the separator of event ids; that is harmless as long
  as no instance is given to two objects, which two boots can do.
- The helper behind `SubjectMatches` lets a lone `>` match the empty subject
  (`pkg/natsconsumer/subject.go:41-46`), the exported function does not.

`dafny verify dfyconfig.toml` checks everything.

## Model

| member | source | states |
|---|---|---|
| ObjectSteps.StepKeeps | internal/engine/dispatcher.go:94-353 | every step of an object's machine (command, worker section, publish attempt, commit result, area removal, crash, repair, boot) keeps the invariant that control block, in-flight token, trees and log agree and commits are numbered from 1 in each instance |
| ObjectSteps.WorkFits | internal/engine/worker.go:40-191 | in a reachable state a worker accepts its task, changes only the published region and the deleted mark, and its result fits the head command |
| ObjectSteps.ConfirmedMeansStored | internal/gtevents/publisher.go:258-271 | a commit is never taken for confirmed, by acknowledgement or by reading back the last message of its subject, unless it is stored |
| ObjectSteps.ConfirmsExactly | internal/gtevents/publisher.go:258-271 | an attempt counts as a success exactly when it was acknowledged, or the read-back works and the last message on the subject has its event id; so a stored message is confirmed as soon as either works |
| ObjectRuns.RunSound | internal/engine/dispatcher.go:76-92 | all object invariants hold in every state of every run |
| ObjectRuns.CrashFreeLog | internal/gtevents/publisher.go:216-271 | in a crash-free run the object's log with repeated event ids dropped is exactly the write sets of the commits sent, in order, then the known part of the current one, however many acknowledgements are lost; the k-th commit in the log is the k-th sent |
| ObjectRefinement.LogRefinement | internal/gtevents/publisher.go:216-256 | the same after any number of crashes: since the last boot the deduplicated log has grown by exactly those write sets |
| ObjectRefinement.NumberedWithoutGaps | internal/engine/dispatcher.go:298-353 | each commit sent is number 1 of an instance never seen before, or the successor of the object's previous commit |
| ObjectRefinement.WriteSetDistinct | internal/gtevents/builder.go:148-188 | a write set has no repeated event id if and only if its commit lists no transition twice |
| ObjectLog.AttemptDedup | internal/gtevents/publisher.go:239-254 | one publish attempt extends the deduplicated stream by at most the next message of the write set, although a failure restarts the projections from the first |
| ObjectLog.LogStep | internal/gtevents/publisher.go:216-271 | every step keeps that refinement |
| ObjectRuns.ProjectionsComplete | internal/gtevents/stream.go:129-198 | with crashes between any two publishes and during repair, every commit but the object's latest has all its projections in the log, and every commit has whenever nothing of the object is being published, in particular after a boot |
| ObjectLog.CompleteStep | internal/gtevents/publisher.go:216-256 | every step, crash and repair included, keeps completeness of settled commits and of acknowledged ones |
| ObjectRefinement.RepairCompletes | internal/gtevents/stream.go:328-380 | in every reachable crashed state the latest commit's projections can be derived, have the expected ids, may be published, and publishing the missing ones completes the log |
| ObjectRuns.AnsweredIsDurable | internal/engine/dispatcher.go:329-338 | a success answered to a caller names a commit that is in the log with all its projections |
| ObjectRuns.AnsweredOnceInOrder | internal/engine/dispatcher.go:107-153 | every command is refused at the door or accepted; accepted commands are answered exactly once each, in arrival order, or still wait at the head or in the queue |
| AnswerCauses.AnsweredForCause | internal/engine/dispatcher.go:315-353 | in every run each answer was given in one step of the same process for a reason: a success to the head when its commit was confirmed, with that commit's instance and number; a failure to a position for which no known region resolves, or to a command behind a removal that was then confirmed |
| AnswerCauses.TakesUpNext | internal/engine/dispatcher.go:315-353 | in a reachable state, when a commit is confirmed the head is answered, the longest refusable prefix of the queue is refused, and the first command that can be started goes out with its token; after a removal the whole queue is refused |
| AnswerCauses.ArriveRefuses | internal/engine/dispatcher.go:107-153 | refused at the door are exactly registrations of a known object and positions and removals of an unknown or removed one |
| ObjectEffects.AnsweredAsAsked | internal/engine/dispatcher.go:219-266 | in every run the commit a success names is the last one stored and is what the command asked for: its position, in the region that resolves for it from the region of the commit before, its dimensions on registration, a removal for a removal; commit and projections carry its client operation |
| ObjectEffects.StoredIsTrue | internal/gtevents/builder.go:87-188 | in every run, published or repaired: a stored removal carries the position and region of the commit before it and the areas it exits; every stored enter or exit is a projection of a stored commit and carries that commit's position, region, dimensions and inside list, for a removal the last position; a commit lists what is entered before what is left, on a move after what the old region held |
| ObjectEffects.BuiltCommit | internal/gtevents/builder.go:87-146 | every field of a built commit message in terms of the input, for positions, registrations and removals |
| ObjectEffects.EffStep | internal/engine/worker.go:130-191 | every step of every kind keeps that, and keeps the result or commit in flight what the head command asked for |
| ObjectEffects.WorkReports | internal/engine/worker.go:40-191 | what a worker reports in a reachable state: the areas the geometry decided are inside; entered are those not in the stored snapshot, left those no longer inside and on a move all of the old region's; a removal leaves all of its snapshot |
| ObjectAnswers.BookStep | internal/engine/dispatcher.go:393-437 | every step keeps that bookkeeping of answers |
| ObjectRuns.OneTree | internal/engine/transition.go:48-79 | in every run an object is in the tree of its published region and in no other, and in none without one, so the queries' error for a published object outside the tree is unreachable |
| ObjectRuns.WorkersNeverReject | internal/engine/worker.go:87-94 | no worker or transition ever rejects a task; the logged invariant violation cannot happen |
| ObjectRuns.RecoveryEqualsLive | internal/engine/engine.go:194-259 | in every run, for an object with nothing in flight, the control block and tree entry rebuilt from the log equal the running engine's |
| ObjectRuns.RecoveredSnapshot | internal/engine/engine.go:249-258 | in every run, at rest: the rebuilt snapshot of the object's region is the inside set of its latest commit and the running one lacks exactly the areas erased since; the two agree if and only if nothing inside was erased, and all snapshots do if and only if moreover none was left behind elsewhere |
| ObjectFolds.WorkReplaysIff | internal/engine/geofence.go:28-49 | in every state a task can be worked in, its transitions lead from a given inside set to the new one if and only if the stored snapshots fit it: the one of the object's region equals it, and on a move that of the new region equals what the old one lacks |
| ObjectGeofence.GeoStep | internal/engine/dispatcher.go:355-391 | every step of every kind, area removals, crashes and returns included, keeps the snapshot of the object's region equal to its committed inside set without the areas erased since, other snapshots only in regions left, and the pending snapshot write right |
| ObjectGeofence.NotReturningIsFresh | internal/engine/dispatcher.go:251-254 | an object that does not return to a region it left, or any object when the snapshot is moved as intended, only enters regions without a snapshot of it |
| ObjectFolds.FitsIff | internal/engine/engine.go:178-187 | fitting in terms of history: nothing inside was erased since the last commit, and the region entered holds no old snapshot, or by chance exactly what was erased |
| ObjectFolds.FitStep | internal/engine/dispatcher.go:219-266 | how every step, of any kind, changes what is in flight and what is in the log: commits stay, and one that is added leads from its predecessor's inside set to its own exactly when its task's snapshots fitted |
| ObjectFolds.EachCommitFoldsIff | internal/engine/dispatcher.go:244-263 | the exact condition per stored commit, in every run with crashes, repairs, boots and area removals: a commit leads from its predecessor's inside set to its own if and only if its task, if any, found snapshots that fitted |
| ObjectFolds.ReplaysIffStoredFitted | internal/engine/dispatcher.go:244-263 | the exact condition for all of them, in every run: the transitions of each instance lead from nothing to all its committed inside sets if and only if every stored commit's task fitted |
| ObjectFolds.ReplaysIffWorkedFitted | internal/engine/dispatcher.go:355-381 | in a run without crashes, area removals allowed, with nothing in flight: if and only if every task worked found snapshots that fitted |
| ObjectFolds.ReplaysIffEnteredFresh | internal/engine/transition.go:54-85 | without crashes and area removals: if and only if every region entered held no snapshot of an earlier visit |
| ObjectFolds.TransitionsReplay | internal/engine/transition.go:54-85 | in particular, crashes allowed, without area removals and returns, or with the intended move: an instance's committed enters and exits lead from nothing to each of its inside sets, and those of each area alternate starting with an enter |
| ObjectFolds.FoldIffReplays | internal/engine/geofence.go:28-49 | each commit leads from its predecessor's inside set to its own if and only if replaying from the start of each instance does |
| ReplayWitness.ReturnBreaksReplay | internal/engine/dispatcher.go:251-254 | a run of the code as written (in, to another region, back in) whose last commit lists an area that was never re-entered |
| ReplayWitness.RemovalBreaksReplay | internal/engine/engine.go:178-187 | a run (in, the area is removed, next position) whose last commit has nothing inside although there was no exit |
| Domain.ReplayIffAlternating | internal/engine/geofence.go:28-49 | a list of transitions replays exactly when each area's events alternate, starting with an enter for areas outside |
| Domain.ReplayDifference | internal/engine/geofence.go:34-49 | enters and exits of the difference to a stored set lead from a set to the current one, in any order of iteration, if and only if that set is the stored one |
| PipelineRuns.Simulates | internal/engine/dispatcher.go:76-92 | each step of the whole system is, for each object, the labelled step of its own machine or leaves it as it is |
| PipelineRuns.SysRunSound | internal/engine/dispatcher.go:76-92 | the system invariant (every object sound, every token recorded once) holds in every state of every run |
| PipelineTheorems.EveryObjectRuns | internal/engine/dispatcher.go:76-92 | refinement: under any interleaving the states an object passes through form a run of its machine, so the single-object results hold in the system |
| PipelineTheorems.PublishedIsInTree | internal/engine/transition.go:48-79 | in every state of the system an object is in a region's tree if and only if that is its published region |
| PipelineTheorems.OneTokenEach | internal/engine/dispatcher.go:219-227 | in every reachable state each busy object has exactly one token among pending send, inboxes, worker hands, result channel, commit channel, publishers and commit results; no other object has any |
| PipelineTheorems.TasksAreRouted | internal/engine/dispatcher.go:196-201 | in every run a region's worker has only tasks of its own region waiting, none of them a move between regions, and the transition executor only moves |
| PipelineTheorems.NoDeadlock | internal/engine/dispatcher.go:196-216 | with fewer than 4162 objects every reachable state with a busy object has an enabled progress step, although inboxes hold 256 and 64 tasks |
| Quiescence.WorkDecreases | internal/engine/dispatcher.go:76-92 | every step that does work leaves less to do: fewer unanswered commands, or as many and fewer stages, messages to confirm, or channel hops |
| Quiescence.ComesToRest | internal/engine/dispatcher.go:76-92 | so below that bound every reachable running state comes to rest, if publishing succeeds from then on: nothing in flight or queued, and every command let in answered |
| DeadlockWitness.DeadlockAtBound | internal/engine/dispatcher.go:59-92 | the bound is exact: with 4162 objects a state can be reached with a command in flight and no progress step enabled, the result channel full, the transition executor holding a result before a full inbox, and the dispatcher waiting for room in it |
| Mailbox.DispatchNext | internal/engine/dispatcher.go:406-423 | starting the next command answers some in order, keeps the commands still waiting, and sends one token exactly when a command stays at the head, with a task for the region that resolves and the kind the route decides; which ones are answered says Refusals.NextStarts |
| Refusals.NextStarts | internal/engine/dispatcher.go:406-423 | exactly the longest prefix of the queue that cannot be started is refused (positions without a known region), in order; the first other command is the head, with its task or commit, and the rest waits |
| Refusals.ArrivalExactly | internal/engine/dispatcher.go:94-153 | what becomes of every arriving command: refused at the door, queued behind one in flight, or started like that; a registration is submitted with a fresh control block |
| Refusals.ResultExactly | internal/engine/dispatcher.go:219-266 | a commit is built unless the result is rejected, the instance has no name, or a removal lists exits without a position; then the head is refused and the queue started |
| Refusals.ConclusionExactly | internal/engine/dispatcher.go:315-353 | every case of a commit result: the answer to the head, the fate of the queue, and when the control block goes |
| Mailbox.RejectHead | internal/engine/dispatcher.go:393-397 | the same, with the head's refusal first |
| Mailbox.DispatchPosition | internal/engine/dispatcher.go:155-201 | initial, update or transition task by the route before, or the head is refused for an unresolved or unknown region |
| Mailbox.DispatchRemove | internal/engine/dispatcher.go:203-217 | a removal goes to the worker of the route, or without one becomes a commit |
| Mailbox.SubmitCommit | internal/engine/dispatcher.go:289-313 | a built commit becomes the one envelope in flight, numbered as built, or the head is refused when it cannot be built |
| Dispatching.Dispatcher.OnEnvelope | internal/engine/dispatcher.go:94-153 | the in-place handler does to its object what the mailbox function says and nothing to any other object or snapshot |
| Dispatching.Dispatcher.OnRegister | internal/engine/dispatcher.go:107-125 | refuses a known object; else a new control block with a fresh instance is submitted |
| Dispatching.Dispatcher.OnMailboxCommand | internal/engine/dispatcher.go:127-153 | refuses an unknown or deleted object, queues behind a busy head, or dispatches |
| Dispatching.Dispatcher.OnResult | internal/engine/dispatcher.go:219-266 | an accepted result becomes a commit with the deferred snapshot write; stray results change nothing |
| Dispatching.Dispatcher.OnCommitResult | internal/engine/dispatcher.go:315-353 | on success the snapshot is written, the caller acknowledged, and the next command started or, after a removal, the queue refused and the control block dropped; on failure the head is refused; other objects are untouched |
| Dispatching.Dispatcher.ApplyPrevInsideMutation | internal/engine/dispatcher.go:355-391 | the snapshot of every region and object after each kind of write |
| Dispatching.Dispatcher.SetPrevInside | internal/engine/dispatcher.go:369-381 | only the named object's entry changes; an empty set is removed rather than stored |
| Workers.WritesAsMachine | internal/engine/dispatcher.go:355-391 | the snapshot writes of the dispatcher are those of the object's machine, and nothing for other objects |
| Dispatching.Dispatcher.DispatchNext | internal/engine/dispatcher.go:406-423 | the loop over control block fields refines the mailbox function, whose refusals and dispatches Refusals.NextStarts states |
| Dispatching.Dispatcher.RejectQueued | internal/engine/dispatcher.go:425-430 | every queued command gets one refusal, in order, and the queue is emptied |
| Events.CheckpointRoundTrip | internal/gtevents/builder.go:224-345 | recovery reads from every built commit exactly the state it was built with, without position and areas for a removal |
| Events.RepairRebuildsProjections | internal/gtevents/stream.go:328-380 | the projections derived from a stored commit equal the original ones up to time and client operation id, if and only if an active commit with transitions has a position and a removal lists no areas inside |
| Events.ProjectionIds | internal/gtevents/builder.go:148-188 | one geofence event per transition, in order, with the id naming area, object, instance and commit number |
| Events.BuildProjectionMsgs | internal/gtevents/builder.go:148-188 | the building loop yields that list |
| EventIds.RenderEqualIff | internal/gtevents/ids.go:23-45 | for colon-free instance ids, which all issued ones are: two event ids are the same string if and only if kind, instance, number and the text of the area and object agree, whatever colons object and area ids hold |
| EventIds.RenderInjective | internal/gtevents/ids.go:7-17 | as long as no instance is given to two objects, different events have different ids |
| EventIds.OneBootInjective | internal/gtevents/ids.go:23-49 | so within one boot, where each counter value goes to one object, event ids are distinct |
| EventIds.BootsShareEventIDsIff | internal/gtevents/ids.go:27-49 | different events of two boots can have the same id if and only if the two boots can issue the same instance id |
| EventIds.EventIDsCollide | internal/gtevents/ids.go:27-49 | two enters that can be published under one id: boots 54 and 1 give one instance to the objects c and b:c |
| EventIds.InstanceIDsOfOneBoot | internal/gtevents/ids.go:47-49 | instance ids of one boot are distinct and colon-free |
| EventIds.InstanceIDsCollideIff | internal/gtevents/ids.go:47-49 | two boots can issue the same instance id if and only if one epoch's base-36 numeral is the other's followed by an i and then nothing or a non-zero digit |
| EventIds.InstanceIDsCollide | internal/gtevents/ids.go:47-49 | the epochs 54 and 1 do |
| EventIds.FormatCommitSeq | pkg/geotruthops/ops.go:365-378 | the hand-written 13-byte formatter gives the base-36 numeral for every 64-bit number |
| EventIds.ReadsBack | internal/gtevents/ids.go:19-21 | a numeral is read back as its number and has no superfluous zero in front |
| Publishing.Backend.PublishOrVerify | internal/gtevents/publisher.go:258-271 | confirmed exactly when acknowledged or when the last message of the subject has the same event id; the stream grows by at most the message |
| Publishing.Backend.CommitOne | internal/gtevents/publisher.go:216-256 | the two nested loops refine the attempt-by-attempt machine, for every sequence of outcomes until cancellation |
| Publishing.CommitOnePublishes | internal/gtevents/publisher.go:216-256 | when the loop succeeds the deduplicated stream has grown by exactly the commit and its projections in order; when cancelled, by a prefix |
| Publishing.CommitOneSucceeds | internal/gtevents/publisher.go:216-256 | whatever went wrong before, once as many attempts in a row succeed as there are messages, the loop has succeeded |
| Publishing.FailureStartsOver | internal/gtevents/publisher.go:239-254 | a failed attempt sends the loop back to the commit while that is not confirmed, else to the first projection |
| Stream.RecoverObjectCommits | internal/gtevents/stream.go:69-127 | fails exactly on an undecodable checkpoint; else holds, per object, a delivered usable event of highest stream sequence |
| Stream.RecoveryPicksLatest | internal/gtevents/stream.go:83-123 | from last-per-subject delivery in any order that is the object's latest commit over all three subjects, for exactly the objects that have one |
| Recovery.LatestIsLastCommit | internal/gtevents/stream.go:69-127 | and it is the last commit of the object's own part of the stream |
| Recovery.CollectExpected | internal/gtevents/stream.go:130-146 | the expected projections of all recovered commits, and a scan start no later than right after any of them |
| Recovery.EventStream.PublishOnce | internal/gtevents/stream.go:388-399 | success exactly when the attempt is confirmed, and then an event with that id is in the stream; the message is appended exactly when it was stored |
| Recovery.EventStream.Scan | internal/gtevents/stream.go:155-186 | finds exactly the expected ids stored as geofence events from the start sequence on |
| Recovery.EventStream.PublishMissing | internal/gtevents/stream.go:188-197 | appends only expected messages that were not found; on success all are there, and it fails only after an attempt that went wrong or when there are too few attempts |
| Recovery.EventStream.RepairLatestProjections | internal/gtevents/stream.go:129-198 | on success every projection of every recovered commit is in the stream; in any case only such projections, not found before, were appended; an underivable commit leaves the stream alone; without one it fails only after an attempt that went wrong or for want of attempts |
| Recovery.RepairedIsSane | internal/gtevents/stream.go:188-197 | what repair appends keeps the stream well-formed and each object's part as its machine keeps it, and adds no commit |
| Recovery.RepairOpensBoot | internal/gtevents/stream.go:129-198 | after a successful repair of what recovery found each object's log has all projections of its latest commit, which is what a boot waits for |
| Ops.ScanGTEvents | pkg/geotruthops/ops.go:294-311 | fails exactly when some entry does not parse, else the records of all entries of objects in stream order |
| Ops.GroupRecords | pkg/geotruthops/ops.go:149-170 | per object the commits, the projections and the latest commit |
| Ops.Protect | pkg/geotruthops/ops.go:172-186 | protected are exactly the latest active commits and the ids of their projections |
| Ops.PartsMakePlan | pkg/geotruthops/ops.go:188-212 | planning object by object in any map order deletes exactly the deletable records once each, an object's commits in stream order |
| Ops.Client.PlanCompaction | pkg/geotruthops/ops.go:133-215 | an error exactly for an unparsable event, else such a plan |
| Ops.Client.ValidatePlan | pkg/geotruthops/ops.go:253-268 | accepts exactly the plans each of whose entries a fresh, most generous plan would delete |
| Ops.Client.Compact | pkg/geotruthops/ops.go:217-251 | without execution, or for a plan the check does not accept, nothing is exported or deleted; otherwise, whatever fails, the entries gone are those of a prefix of the plan, counted in the result with one uncertain entry on failure; the prefix is the longest one without a fault or a repeated entry, an entry counts as exported when it was reached, and one more is gone exactly when its deletion happened although it was reported as failed |
| Compaction.LatestAgrees | pkg/geotruthops/ops.go:157-166 | the planner's latest commit of an object is recovery's |
| Compaction.SafeAtEveryPrefix | pkg/geotruthops/ops.go:148-214 | after any prefix of a generated plan and any events appended later, recovery finds the same active objects in the same states as without compaction |
| Compaction.TombstoneGoesLast | pkg/geotruthops/ops.go:188-203 | a prefix that deletes an object's latest commit has deleted all its commits |
| Compaction.ProjectionsSurvive | pkg/geotruthops/ops.go:172-213 | no projection of a latest active commit is deleted |
| Compaction.CompactedExactly | pkg/geotruthops/ops.go:172-214 | a completed plan leaves exactly: of the commits the latest of each object, unless that is a removal and tombstones go too; of the enters and exits those an active object's latest commit lists; all commits when they are not included; and what is about no object |
| CompactionOrder.OrderDecidesSafety | pkg/geotruthops/ops.go:236-268 | of the plans the check accepts, exactly those are safe at every prefix in which no active commit outlives all its successors |
| CompactionOrder.GeneratedInOrder | pkg/geotruthops/ops.go:188-214 | generated plans are accepted and in that order |
| CompactionOrder.CompactedIsSafe | pkg/geotruthops/ops.go:217-251 | end to end: what a compaction with a plan in that order leaves, wherever it stopped, recovers to the same active objects in the same states |
| CompactionOrder.ReorderedPlanResurrects | pkg/geotruthops/ops.go:253-268 | an accepted plan with the tombstone first brings a removed object back when stopped after one deletion |
| OrientedBox.CircleTestIsExact | internal/geo/obb.go:103-116 | the clamp test is true if and only if some point of the rotated rectangle is within the radius |
| OrientedBox.NearestIsNearest | internal/geo/obb.go:109-114 | the clamped point is a nearest point of the rectangle |
| OrientedBox.BoxHoldsRectangle | internal/geo/obb.go:25-44 | the box around the corners holds every point of the rectangle |
| OrientedBox.CornersReach | internal/geo/obb.go:118-130 | along every direction the corners' projections enclose that of any point of the rectangle |
| OrientedBox.Project | internal/geo/obb.go:118-130 | least and greatest projection, both attained |
| OrientedBox.BoundingBox | internal/geo/polygon.go:105-123 | the least rectangle around the points |
| EvenOdd.PointInPolygon | internal/geo/polylabel.go:88-99 | the toggling loop computes the parity of the crossings of the closed ring |
| EvenOdd.CrossesBySign | internal/geo/polylabel.go:96-97 | the division in the crossing test, by the sign of a turn |
| EvenOdd.InsideClipped | internal/geo/triangulate.go:51-58 | cutting a vertex off flips a point's parity exactly when the point is inside the cut triangle |
| EvenOdd.OddIsSurrounded | internal/geo/triangulate.go:98-107 | a point inside a triangle by the even-odd rule passes the sign test and is a proper average of the corners |
| EvenOdd.PointInTriangleIsExact | internal/geo/triangulate.go:98-111 | the sign test holds exactly for the averages of the corners with non-negative weights, when they are not on a line; on a line exactly for points in line with every two of them |
| Boundaries.ParityIsConstant | internal/geo/polylabel.go:94-99 | for every polygon, simple or not: two points joined by a segment that meets no edge are both inside or both outside |
| EarClipping.SignedArea | internal/geo/triangulate.go:20-24 | the loop computes the shoelace sum |
| EarClipping.TestEar | internal/geo/triangulate.go:78-96 | true exactly for a left turn such that no other remaining vertex is an average of the three corners with non-negative weights |
| EarClipping.ClipEars | internal/geo/triangulate.go:37-65 | the in-place rotation loop clips ears in sequence, each from a turn of what remained, and stops early only when no remaining vertex is an ear; it terminates in (remaining, count) |
| EarClipping.Triangulate | internal/geo/triangulate.go:11-76 | every case of the result in those terms |
| Triangulation.CompleteOrNoEar | internal/geo/triangulate.go:41-75 | at most n - 2 triangles; fewer exactly when more than three vertices remain, none of them an ear |
| Triangulation.EarsAreEmpty | internal/geo/triangulate.go:78-96 | every ear of the result turns left, and of the vertices no earlier ear cut off only its corners are averages of its corners |
| Triangulation.NoEarMeans | internal/geo/triangulate.go:41-65 | when clipping ends early every remaining vertex turns right or not at all, or another remaining vertex is such an average |
| Triangulation.Conserved | internal/geo/triangulate.go:41-65 | at every stage the ears' doubled areas plus the remaining shoelace sum are that of the start, and a point's parity is that of what remains combined with the ears |
| Triangulation.AreaConserved | internal/geo/triangulate.go:16-75 | the doubled areas of a complete triangulation add up to the polygon's absolute doubled area, and every ear's is positive; for three points they keep their sign, so there exactly when it is not negative |
| Triangulation.ParityConserved | internal/geo/triangulate.go:41-75 | a point is inside the polygon by the even-odd rule if and only if it is inside an odd number of the triangles |
| Triangulation.InsideIsCovered | internal/geo/triangulate.go:121-128 | every point inside the polygon is found by the triangle test |
| Triangulation.TrianglesContainPoint | internal/geo/triangulate.go:121-128 | true exactly when some triangle passes the sign test |
| Interiors.FoundIffInside | internal/geo/triangulate.go:11-76 | for a simple polygon, a complete triangulation whose last triangle turns left (for three points: that are not on a line; both always hold, by EarsExist.AlwaysTiles) is a tiling: no two triangles share a strict interior point, none is flat, and a point is in some closed triangle if and only if it is inside the polygon or on its boundary |
| Interiors.EarIsOutside | internal/geo/triangulate.go:78-96 | an ear of a clean ring is outside of the ring without it, because the inside of that ring is on the left of its edges |
| Interiors.EdgeStaysOut | internal/geo/triangulate.go:85-94 | no other edge of a simple ring passes through an ear: it meets the closed ear in a common corner at most |
| EarsExist.AlwaysTiles | internal/geo/triangulate.go:11-76 | every simple polygon that is not three points on a line is triangulated completely, n - 2 triangles of which all turn left when there are more than three points, so its triangulation is such a tiling |
| EarsExist.TwoEars | internal/geo/triangulate.go:37-65 | the two-ears theorem: a clean ring of four corners or more with its inside on the left has two ears that are not neighbours, so the clipping loop never gives up on a simple polygon |
| EarsExist.AreaIsPositive | internal/geo/triangulate.go:20-35 | with the inside on the left the shoelace sum is positive; so the choice of the starting direction by its sign puts the inside on the left |
| EarsExist.AlwaysComplete | internal/geo/triangulate.go:66-75 | a simple polygon always gives n - 2 triangles |
| Orientations.OneSided | internal/geo/triangulate.go:26-35 | a clean ring has its inside on the left of all its edges or on the right of all of them |
| SeparatingAxis.IntersectsTriangle | internal/geo/triangulate.go:180-209 | the loop decides that no tried axis separates rectangle and triangle, skipping edges without length |
| SeparatingAxis.IntersectsTriangles | internal/geo/triangulate.go:225-232 | for some triangle |
| SeparatingAxis.SharedPointTouches | internal/geo/triangulate.go:180-223 | a rectangle with a point properly surrounded by the triangle's corners passes the test |
| AxesSuffice.TouchesIsExact | internal/geo/triangulate.go:180-223 | the separating-axis test is exact: true if and only if rectangle and closed triangle, be it flat or a point, share a point |
| AxesSuffice.SharedPoint | internal/geo/triangulate.go:180-223 | why five axes are enough: a triangle whose corners reach into the rectangle's ranges and none of whose edges cuts it off shares a point with it |
| Segments.SegmentDistanceIsLeast | internal/geo/triangulate.go:164-178 | the clamped distance is attained on the segment and no point of the segment is nearer, degenerate segments included |
| Segments.PointToPolygon | internal/geo/polylabel.go:88-106 | parity and least squared edge distance, attained |
| LabelDistances.PointToPolygonDist | internal/geo/polylabel.go:88-112 | the signed distance: the root of the least squared edge distance, negative outside |
| LabelDistances.SignedDistanceMoves | internal/geo/polylabel.go:63-74 | the signed distance grows by no more than one moves, also across the boundary; hence the bound of a cell |
| Segments.NothingInsideFlat | internal/geo/polylabel.go:18-21 | nothing is inside a polygon whose box has no width or no height, so the early return loses nothing |
| Polygons.SegmentTestIsExact | internal/geo/polygon.go:74-103 | the segment test is true if and only if the two closed segments share a point, collinear and degenerate cases included |
| Polygons.IsSimplePolygon | internal/geo/polygon.go:43-68 | true exactly for three or more distinct points whose edges without a common corner share no point |
| Polygons.NeighboursMeetInCorner | internal/geo/polygon.go:40-68 | what acceptance means for consecutive edges: they meet in their common corner alone, if and only if the polygon is not three points on a line |
| Polylabels.Polylabel | internal/geo/polylabel.go:10-54 | no point of the polygon's box has a signed distance greater than the result's by more than the precision; the distance returned is that of the point returned, and no worse than the centroid's |
| Polylabels.Search | internal/geo/polylabel.go:38-53 | the branch-and-bound loop terminates by a weight of the queue and accounts for every point |
| Polylabels.HalvingShrinks | internal/geo/polylabel.go:43-50 | why subdivision ends: a cell that is divided is larger than the precision and its halves are strictly nearer to it |
| SpatialIndexes.SpatialIndex.Upsert | internal/rtree/rtree.go:36-44 | bag of boxes and id index stay in step; one entry per id |
| SpatialIndexes.SpatialIndex.Delete | internal/rtree/rtree.go:46-53 | removes the id's entry from both |
| SpatialIndexes.SpatialIndex.Search | internal/rtree/rtree.go:62-80 | exactly the indexed items whose box meets the window, each once |
| Regions.RegionState.Collect | internal/engine/geofence.go:17-61 | the inside set found by box search and triangle tests, and listings of it and of the differences to the stored snapshot |
| Regions.RegionState.RegisterArea | internal/engine/engine.go:133-167 | refused exactly for an id with a dot or points that are not a simple polygon; else indexed with its box and its triangulation, of n - 2 triangles |
| Regions.RegionState.RemoveArea | internal/engine/engine.go:169-192 | the area leaves the index and every snapshot; emptied snapshots are deleted |
| Regions.NoMissedGeofence | internal/engine/geofence.go:17-26 | end to end, in terms of position, dimensions and rotation: an object that covers a point of the even-odd interior of a registered polygon is found inside it |
| Regions.FoundExactly | internal/engine/geofence.go:17-26 | the geofence computation is exact: an area is found if and only if the object, of dimensions not negative, covers a point of one of its closed triangles; the search by boxes loses none |
| Regions.FoundIffTouched | internal/engine/geofence.go:17-26 | the law of the geofence, for every registered polygon that is not three points on a line: the area is found if and only if the object covers a point inside the polygon or on its boundary |
| Regions.PlacedCovers | internal/geo/obb.go:16-23 | the rectangle placed for an object holds exactly the points at most half the width along the rotated x axis and half the height along the rotated y axis from its position |
| Regions.RegionState.PlacedValid | internal/rtree/rtree.go:36-44 | every object in a region's tree has a rectangle that holds exactly the points it covers, a proper one if its dimensions are not negative |
| Queries.Nearby | internal/engine/queries.go:27-66 | the objects whose box meets the square and that pass the circle test; for a radius and dimensions not negative exactly those that cover a point within the radius |
| Queries.WithinIffTest | internal/engine/queries.go:33-65 | square search plus circle test equals brute force |
| Queries.NearbyOf | internal/engine/queries.go:68-134 | the others near an object; fails exactly for an unpublished object or one missing from its region's tree |
| Queries.NearbyOfFindsPublished | internal/engine/queries.go:84-88 | in every state the pipeline reaches the error for a published object missing from its region's tree does not occur |
| Queries.WithinArea | internal/engine/queries.go:136-178 | exactly the objects whose geofence computation would list the area as inside, that is, for dimensions not negative, those that cover a point of one of its triangles |
| Queries.AreasAtPoint | internal/engine/queries.go:180-213 | exactly the areas with the point in their box and in a triangle; without flat triangles, those one of whose closed triangles holds it |
| Queries.InsideIsFound | internal/engine/queries.go:186-212 | a point inside the polygon by the even-odd rule passes both tests |
| Queries.AtPointIffInArea | internal/engine/queries.go:186-212 | for every registered polygon that is not three points on a line both tests pass exactly for the points inside the polygon or on its boundary |
| Workers.RegionWorker.ProcessInit | internal/engine/worker.go:40-78 | the in-place section does to the region's tree and the control block what the machine's step does, with the inside set the geometry decides; other objects are untouched |
| Workers.RegionWorker.ProcessUpdate | internal/engine/worker.go:80-124 | the same, with the rejections for a deleted object or another published region |
| Workers.RegionWorker.ProcessRemove | internal/engine/worker.go:130-191 | the same; the stored snapshot is listed as exits and stays; that the position reported is the last committed one is ObjectEffects.EffStep |
| Workers.TransitionExec.ProcessTransition | internal/engine/transition.go:33-102 | the same for both regions: out of the old tree, into the new one, old exits first |
| Workers.BootstrapFromState | internal/engine/engine.go:225-259 | rebuilds control block, tree entry and snapshot as the machine's boot does |
| Workers.BootstrapPlaceObject | internal/engine/engine.go:194-223 | places the object with its stored dimensions and sets both regions |
| Subjects.ContainmentIsInclusion | pkg/natsconsumer/subject.go:65-112 | for all patterns containment is true if and only if every concrete subject matched by the contained one is matched by the container |
| Subjects.PatternContains | pkg/natsconsumer/subject.go:78-112 | the token loop decides both |
| Subjects.SubjectMatches | pkg/natsconsumer/subject.go:21-63 | the string fast paths and the token loop agree with the meaning of patterns, the empty subject included |
| Subjects.MatchesByPosition | pkg/natsconsumer/subject.go:15-20 | the documented meaning of a valid pattern, position by position, is the one the matcher has |
| Subjects.ValidateSubject | pkg/natsconsumer/consumer.go:704-715 | true exactly when `>` occurs only as the last token |
| Subjects.TokenizeJoin | pkg/natsconsumer/subject.go:5-10 | splitting inverts joining for every token sequence a string can spell |
| Subjects.ContainsTransitive | pkg/natsconsumer/subject.go:84-112 | containment is transitive |
| Subjects.EquivalentPatternsAreEqual | pkg/natsconsumer/consumer.go:363-381 | valid patterns that match the same subjects are the same string |
| Subjects.InvalidPatternsCanBeEquivalent | pkg/natsconsumer/consumer.go:704-715 | without validation two spellings contain each other |
| SubjectTrie.SubTrie.Insert | pkg/natsconsumer/subject.go:133-159 | the live entries grow by exactly this one; the trie stays sound and without dead branches |
| SubjectTrie.SubTrie.Remove | pkg/natsconsumer/subject.go:161-167 | exactly the entry with this id and pattern goes and is returned; every node still leads to a live entry |
| SubjectTrie.SubTrie.RemoveWalk | pkg/natsconsumer/subject.go:169-220 | reports a node dead only when it is empty, and leaves dead nodes only on the walked path |
| SubjectTrie.SubTrie.Match | pkg/natsconsumer/subject.go:222-256 | each live entry whose pattern matches exactly once and nothing else: the trie agrees with a linear scan |
| Consumer.FilterSubjects | pkg/natsconsumer/consumer.go:363-385 | kept are exactly the patterns no other contains; none contains another, and they match exactly the subjects matched by all |
| Consumer.MaximalFiltersDeliverTheSame | pkg/natsconsumer/consumer.go:369-381 | dropping contained patterns changes no delivery, because containment is a partial order |
| Consumer.Mux.Subscribe | pkg/natsconsumer/consumer.go:158-223 | every outcome of the server's reply: added, refused, undone, reset or closed, with the entries, the id and whether there is a server consumer; without subscriptions, so after the last one went, a valid one succeeds exactly when the server creates a consumer, and otherwise the consumer stays open |
| Consumer.Mux.RemoveEntry | pkg/natsconsumer/consumer.go:225-239 | one subscription leaves counts, entries and trie |
| Consumer.Mux.Unsubscribe | pkg/natsconsumer/consumer.go:456-513 | the subscription goes; all go when the server's consumer is lost and not replaced; the server's consumer is forgotten exactly with the last subscription, so that the next one creates a new consumer |
| Consumer.Mux.Reset | pkg/natsconsumer/consumer.go:655-671 | all local state is cleared |
| Consumer.Mux.Dispatch | pkg/natsconsumer/consumer.go:616-620 | a message passes the filters if and only if some subscriber receives it, each matching one once |

## Left out

- NATS, JetStream, connection handling, service startup, the command line and JSON text, with the event-kind field: plumbing; messages are records.
- Message envelopes, the error registry, the watch, query and publish clients, stream pressure advisories, export files and flat resolvers: thin.
- Region names: a region is its position in the resolver's list, and the resolver is a given function of position and previous region.
- Commands without a reply subject: every command has one; the code skips the answer when it is empty.
- Floating-point rounding and the largest-number sentinels: coordinates are reals; trigonometry enters only through cos² + sin² = 1.
- Fetch loops: they are complete scans; the code stops silently on a fetch error, and the compaction scan skips entries it cannot fetch.
- Order of map iteration: any order, chosen by each method; the order of repaired projections after a crash is not stated.
- ObjectFolds.TransitionsReplay: a sufficient condition; the exact one, in all runs, is ObjectFolds.ReplaysIffStoredFitted.
- EventIds.RenderInjective: one object per instance is sufficient; the exact condition for two events is EventIds.RenderEqualIff.
- EventIds.InstanceIDsCollideIff: numbers are unbounded, as for all counters here except in FormatCommitSeq.
- PipelineTheorems.NoDeadlock: a publish attempt counts as progress even if it fails; what follows when attempts succeed is Quiescence.ComesToRest.
- Quiescence.ComesToRest: arrivals, area removals and crashes are not among the steps from then on; with ever new commands, answering depends on which step is taken when.
- Polylabels.Polylabel: the square root is any function with the square root's property, and the centroid is a parameter.
- SeparatingAxis.SharedPointTouches: one direction; both are in AxesSuffice.TouchesIsExact.
- Regions.RegionState.RegisterArea: the centroid and label point stored with the area, and the unknown-region error, are left out.
- Queries.NearbyOf: the corners copied into the answer are left out; so are AreasContaining and Intersecting, NearbyAreas, Bounds and the listings, which repeat the same searches.
- OBB.IntersectsOBB, the triangle-circle test and CentroidFromPolygon: used only by queries left out and by the label search's starting point.
- Consumer.FilterSubjects: the final sort is left out; the order does not matter to the server.
- Consumer.Mux.Subscribe: goroutine lifecycle and the window in which the lock is dropped while dispatching starts are left out; a reset there can make the count of another subscriber drop (`pkg/natsconsumer/consumer.go:234`), so nothing is claimed about it.
- Consumer.Mux.Dispatch: what the subscribers' channels do with a message, and Close, are left out.
- Recovery.EventStream.RepairLatestProjections: exit events of a retained tombstone that compaction deleted are published again by the next repair; this is not stated.
- Ops.Client.Compact: export file contents are left out; a failed deletion may or may not have happened.
- Workers.BootstrapFromState: one object and its region; the engine's map of control blocks is not part of the method.
- DirectRemoveObject and RegisterObject: helpers that the command pipeline does not use.
