# Minato, modelled in Dafny

Minato is a Kubernetes operator for game servers. This project models its four reconcilers as state
machines over the objects in the API server, together with two small codecs, and proves what every
run of them keeps. `dafny verify dfyconfig.toml` checks everything.

**Fleets** (`Fleet*.dfy`). A pass is a labelled transition on the namespace's GameServers. A deleted
server stays listed until its finalizer goes, creations and deletions may fail part-way, and the
rolling update writes under optimistic concurrency and may be refused. Main results: scale-up
settles in one full pass at the first taken name and stays there; scale-down never drifts from its
first selection and deletes exactly the initial excess; the rollout follows max(0, m - 2^p (m -
k0)), or stands still.

**Actions** (`Action*.dfy`). An execution's pass is split at the agent call, so that many are in
flight at once; status writes may be lost, the operator may crash anywhere, records may be deleted
and recreated, and the TTL sweep goes on beside all this. Main results: mutual exclusion in every
interleaving, the only possible histories, an exact account of dispatches, an exact sweep.
`ActionLimits` says what the protocol does not give, and for which declarations it does.

**Snapshots** (`Snapshot*.dfy`). A pass reads the clock six times, because saving a game can take
minutes. Main results: a schedule left to its own delays takes its first snapshot at its first pass
or never; LastSnapshotAt only grows and snapshots are bounded by ticks; two snapshots within ten
minutes need the first to have been seen ready; the status list is an index of the existing
VolumeSnapshots; retention keeps the longest admissible suffix.

**Game servers** (`GameServer*.dfy`). Two machines. `GameServerLifecycle` works one API call at a
time, with failures, crashes and other users between any two calls: a child that stands implies the
GameServer with its finalizer. `GameServerModel` works pass by pass: when the idle shutdown fires,
that replicas, phase, endpoints and Service agree after a completed pass, and that no ready server
goes to zero unannounced.

**Codecs.** `Rcon` (little-endian RCON packets, "Basic Packet Structure" of the Source RCON
Protocol), `Namespaces` (comma-separated pattern lists) and `ApiKeys` (what storing and loading a
key does to its access decisions: it keeps those of clean lists, and turns a key of blank patterns
cluster-wide).

In each part the code itself is an imperative class or method (`*Controller`, `GameServerFinalizer`,
the loops in `Rcon`, `Namespaces` and `ApiKeys`) whose postcondition is the step of the machine. The
`*Meaning` modules say what each step does in the fields of the objects it meets, and the other
theorems are lemmas about runs of the machine.

Assumptions, each of them a precondition or part of the state:

- Reads see the current store; passes over one object do not overlap; the clock is a whole number of
  seconds and does not run backwards.
- Fleet replicas are not negative, and fleet templates leave the fleet and generation labels alone.
- An execution lives in the namespace of its target, and profiles stay fixed during a run.
- A cron schedule is its `Next` function, which gives the least later tick.
- Others leave the operator's finalizers alone and create no object under the names of a server's
  children. They may delete anything.
- Snapshot and fleet status writes succeed. Writes of executions and of GameServer status may fail.
- Conditions carry no message text; those of executions and snapshots carry no generation.

Where code and documentation differ the code is followed: the rolling update is described as one
server at a time by default, but with the default budget of one it updates nothing
(`FleetRollout.DefaultBudgetUpdatesNothing`), and the Source RCON client passes the login and
command types, 3 and 2, as packet ids.

## Model

| member | source | states |
|---|---|---|
| `FleetSelection.SelectionUnique` | internal/controllers/gameserverfleet_controller.go:158-169 | there is only one set of the first k servers in (players, creation, name) order |
| `FleetSelection.SelectionShrinks` | internal/controllers/gameserverfleet_controller.go:144-176 | removing victims from the listing leaves the rest of the selection as the selection of the rest |
| `FleetSelection.SortedUnique` | internal/controllers/gameserverfleet_controller.go:158-169 | with distinct names there is only one sorted arrangement of a listing |
| `FleetSelection.SortedPrefixIsSelection` | internal/controllers/gameserverfleet_controller.go:153-175 | the head of a sorted listing precedes every survivor in the deletion order |
| `FleetController.SelectServersToDelete` | internal/controllers/gameserverfleet_controller.go:144-176 | exactly max(0, n - desired) distinct listed servers, in order, each with fewer players than every survivor, or as many and older, or as old and first by name; the head of every correct sort of the listing; none for OnDelete |
| `FleetController.SelectionIgnoresListingOrder` | internal/controllers/gameserverfleet_controller.go:149-175 | permuted listings give the same victims in the same order |
| `FleetScaleUp.ServerNameInjective` | internal/controllers/gameserverfleet_controller.go:312-312 | different indices give different server names |
| `FleetScaleUp.RollingFrame` | internal/controllers/gameserverfleet_controller.go:271-303 | a rolling update changes neither membership nor anything the deletion order looks at |
| `FleetScaleUp.ScaleUpPass` | internal/controllers/gameserverfleet_controller.go:101-113 | a pass adds exactly the servers it creates, at most up to the goal: the first taken index from the current count on, or the target; the goal stays the same |
| `FleetScaleUp.ScaleUpNeverOvershoots` | internal/controllers/gameserverfleet_controller.go:101-113 | at every moment of a run, with creations failing at will, the fleet is between its first size and the goal it started with, and has lost no server |
| `FleetScaleUp.ScaleUpSettles` | internal/controllers/gameserverfleet_controller.go:101-113 | from one pass without a failed creation on, the count is min(desired, least taken index from the initial count on), after any number of passes |
| `FleetScaleUp.ScaleUpReachesTargetIff` | internal/controllers/gameserverfleet_controller.go:101-113 | the target is then reached if and only if no name in [current, desired) was taken |
| `FleetScaleUp.BlockedPassDoesNothing` | internal/controllers/gameserverfleet_controller.go:101-113 | a fleet whose next name is taken does not change any more, templates included |
| `FleetScaleUp.GapIsNeverFilled` | internal/controllers/gameserverfleet_controller.go:101-113 | servers 0 and 2 of a fleet of three stay two for ever, whatever calls fail |
| `FleetScaleDown.LaterVictims` | internal/controllers/gameserverfleet_controller.go:115-126 | a later pass selects exactly the still-listed part of the first selection |
| `FleetScaleDown.ScaleDownNeverDrifts` | internal/controllers/gameserverfleet_controller.go:115-126 | at every moment of a run: nothing outside the first selection is deleted, all survivors are listed, the next selection is the rest of the first |
| `FleetScaleDown.CompletePassDeletesAll` | internal/controllers/gameserverfleet_controller.go:115-126 | after one pass without a failed delete exactly the first selection has been deleted or was on its way out before |
| `FleetScaleDown.ScaleDownTotal` | internal/controllers/gameserverfleet_controller.go:115-126 | from such a pass on, at every moment, the deletions and what was leaving before are exactly the first selection, whose size is the initial excess |
| `FleetScaleDown.ScaleDownSettles` | internal/controllers/gameserverfleet_controller.go:115-126 | once no deleted server is left, exactly the survivors of the first selection remain |
| `FleetScaleDown.LeavingSurvivorIsLost` | internal/controllers/gameserverfleet_controller.go:85-94 | these need that no survivor is on its way out at the start: such a one leaves without any pass deleting it |
| `FleetRollout.RolloutPass` | internal/controllers/gameserverfleet_controller.go:232-306 | a pass brings exactly its batch up to date, refused updates aside, and touches no other server |
| `FleetRollout.BatchBound` | internal/controllers/gameserverfleet_controller.go:270-271 | the batch of every budget and backlog: the slots left; none when k >= m if and only if the 32-bit difference does not wrap; and what it is if it does |
| `FleetRollout.RolloutBacklog` | internal/controllers/gameserverfleet_controller.go:239-305 | the backlog after p passes, and that nothing joins it |
| `FleetRollout.BacklogClosedForm` | internal/controllers/gameserverfleet_controller.go:239-305 | the backlog function is max(0, m - 2^p (m - k0)) |
| `FleetRollout.RolloutClosedForm` | internal/controllers/gameserverfleet_controller.go:239-305 | outdated servers after p passes, for every budget: max(0, m - 2^p (m - k0)) if k0 <= m; k0 if k0 >= m without wrap-around; with it, the form for m + 2^32 up to the pass where the wrap-around ends |
| `FleetRollout.FullBacklogIsFrozen` | internal/controllers/gameserverfleet_controller.go:239-305 | a backlog that fills the budget stays the very same set if and only if the 32-bit difference does not wrap |
| `FleetRollout.NoSlotNoUpdate` | internal/controllers/gameserverfleet_controller.go:270-271 | that it stays so needs no call to succeed |
| `FleetRollout.WrappedBacklog` | internal/controllers/gameserverfleet_controller.go:270-271 | a budget that wraps acts as one that is 2^32 larger until the difference fits again, and then nothing moves |
| `FleetRollout.RolloutFinishesIff` | internal/controllers/gameserverfleet_controller.go:239-305 | a rollout finishes if and only if its backlog is empty or under budget |
| `FleetRollout.DefaultBudgetUpdatesNothing` | internal/controllers/gameserverfleet_controller.go:240-244 | without a configured budget no outdated server is ever updated |
| `FleetRollout.ReadyFleetIsAtRest` | internal/controllers/gameserverfleet_controller.go:101-131 | a fleet of the right size without outdated servers is not changed by a pass |
| `FleetMeaning.NewServerIsOfTemplate` | internal/controllers/gameserverfleet_controller.go:308-341 | a new server of index i: named fleet-i, with the template's profile, env and annotations, and its labels over the five of the fleet |
| `FleetMeaning.UpdateIsOfTemplate` | internal/controllers/gameserverfleet_controller.go:277-298 | an updated server has the template's profile and generation; every key the template sets in env, annotations and labels reads so, every other as before; name and state stay |
| `FleetSelection.BeforeMeans` | internal/controllers/gameserverfleet_controller.go:158-169 | the comparator in fields: fewer players, then older, then by name, where the shorter or smaller after a common prefix is first |
| `FleetMeaning.MembersMean` | internal/controllers/gameserverfleet_controller.go:86-91 | members and outdated servers by their two labels |
| `FleetMeaning.VictimsMean` | internal/controllers/gameserverfleet_controller.go:144-176 | the victims of a pass in fields: how many, whose, and that each goes before every other member; none for OnDelete |
| `FleetMeaning.DeletionMeans` | internal/controllers/gameserverfleet_controller.go:116-126 | after a deleting pass a victim is gone, or marked if a finalizer holds it; everybody else is there and unmarked by the pass |
| `FleetMeaning.StrategyMeans` | internal/controllers/gameserverfleet_controller.go:96-99 | OnDelete deletes and updates nothing; only RollingUpdate, named or by default, updates |
| `FleetMeaning.CreationMeans` | internal/controllers/gameserverfleet_controller.go:102-113 | each index a pass creates has at its end a new server under its name, free before, with the template's settings |
| `FleetMeaning.BatchMeans` | internal/controllers/gameserverfleet_controller.go:246-268 | the servers picked for update are behind, and none left behind has fewer players, or as few and is older |
| `FleetMeaning.UpdateMeans` | internal/controllers/gameserverfleet_controller.go:271-303 | a picked server whose update is accepted and that is unchanged since the listing gets the template; every other stays as it is |
| `FleetMeaning.RolloutMeans` | internal/controllers/gameserverfleet_controller.go:232-306 | in a pass of a fleet of the right size exactly the picked and accepted servers come to the fleet's profile and settings |
| `Decimal.DecSays` | internal/controllers/gameserverfleet_controller.go:312-313 | the numerals in names and labels are decimal, without leading zeros, and say their number |
| `FleetModel.FirstTaken` | internal/controllers/gameserverfleet_controller.go:103-112 | the least index that is taken, or the end |
| `FleetController.Reconciler.List` | internal/controllers/gameserverfleet_controller.go:85-91 | every member of the fleet once, as stored |
| `FleetController.Reconciler.ScaleUp` | internal/controllers/gameserverfleet_controller.go:102-113 | creates the servers in order up to the first taken name or failing call, and stops there |
| `FleetController.Reconciler.ScaleDown` | internal/controllers/gameserverfleet_controller.go:116-126 | deletes the victims in order up to the first failing call, and completes exactly when none fails |
| `FleetController.Reconciler.HandleRollingUpdate` | internal/controllers/gameserverfleet_controller.go:232-306 | updates a batch of the outdated servers, earliest first, each only if unchanged since the listing and not refused |
| `FleetController.Reconciler.UpdateStatus` | internal/controllers/gameserverfleet_controller.go:343-391 | the counters of the listing, running servers among them; Ready with reason Updating, Scaling or Reconciled |
| `FleetController.Reconciler.Reconcile` | internal/controllers/gameserverfleet_controller.go:85-140 | a pass is a step of the fleet relation, whatever calls fail; it completes exactly when none that ends it does, and reports what it found |
| `ActionModel.BeginEffect` | internal/controllers/actionexecution_controller.go:54-124 | whatever a pass meets, its effect is nothing or one lawful move of its own execution, stamped as that state requires |
| `ActionProtocol.RunKeepsExclusion` | internal/controllers/actionexecution_controller.go:149-182 | in every run any two executions running on one server are compatible |
| `ActionProtocol.NoTwoRunning` | internal/controllers/actionexecution_controller.go:115-124 | no two running executions on a server share a serialize or exclusive action, nor are both exclusive |
| `ActionProtocol.ExclusiveEntersAlone` | internal/controllers/actionexecution_controller.go:149-182 | an exclusive action enters Running only when nothing else is Running on its server |
| `ActionProtocol.EntersByAdmission` | internal/controllers/actionexecution_controller.go:68-124 | the admission check is the only way into Running, and it moves one execution |
| `ActionMeaning.AdmittedIff` | internal/controllers/actionexecution_controller.go:68-124 | admitted if and only if the server is there, bound to a profile whose first declaration of that name has every required parameter supplied, the list call worked, and nothing running there is in an exclusive newcomer's way or of a serialized one's kind |
| `ActionMeaning.RunningIsSupplied` | internal/controllers/actionexecution_controller.go:107-110 | in every run an execution stored as Running or handed to an agent supplies every parameter its declaration requires |
| `ActionMeaning.NewBecomesPending` | internal/controllers/actionexecution_controller.go:54-62 | a new execution becomes Pending and nothing else, unless it is being deleted |
| `ActionMeaning.AdmittedIsLaunched` | internal/controllers/actionexecution_controller.go:124-126 | an admitted one is handed over, and stored as Running with its start time if the write lands |
| `ActionMeaning.RefusedIsRejected` | internal/controllers/actionexecution_controller.go:68-117 | a refused one is stored as Rejected with its end time and the reason, and no agent hears of it |
| `ActionMeaning.OtherwiseNothing` | internal/controllers/actionexecution_controller.go:64-66 | in every other state, or in flight, gone or unreadable, nothing changes |
| `ActionMeaning.AnswerIsStored` | internal/controllers/actionexecution_controller.go:126-132 | the agent's answer is stored as Succeeded or Failed with its end time, on the execution it was for |
| `ActionLifecycle.OnlyLegalHistories` | internal/controllers/actionexecution_controller.go:54-132 | only ""->Pending->Rejected and ""->Pending->Running->Succeeded/Failed; Running is skipped only by an execution whose Running write was lost; never TimedOut |
| `ActionLifecycle.TerminalIsFinal` | internal/controllers/actionexecution_controller.go:64-66 | in every run, lost writes included, a terminal record is kept, marked for deletion or deleted |
| `ActionLifecycle.DispatchesAreAccounted` | internal/controllers/actionexecution_controller.go:124-132 | in every run the dispatches of an execution are exactly its lost Running writes, plus one if Running was ever stored |
| `ActionLifecycle.DispatchedAtMostOnce` | internal/controllers/actionexecution_controller.go:124-132 | at most one dispatch if and only if no Running write was lost, or one was and none landed |
| `ActionLifecycle.RunKeepsStamps` | internal/controllers/actionexecution_controller.go:226-253 | terminal implies EndedAt, Running implies StartedAt, in every reachable state |
| `ActionLifecycle.SweepIsExact` | internal/controllers/actionexecution_cleanup.go:44-83 | a sweep removes only Succeeded records ended over seven days ago and other terminal ones ended over thirty, leaves none such, and skips none for want of EndedAt |
| `ActionLimits.LostWriteDispatchesTwice` | internal/controllers/actionexecution_controller.go:252-252 | for every declared action: a lost Running write followed by a crash dispatches twice |
| `ActionLimits.LostWriteSkipsRunning` | internal/controllers/actionexecution_controller.go:124-132 | for every declared action and either answer: a lost Running write and a result that lands give ""->Pending->Succeeded or Failed |
| `ActionLimits.NewcomerJoins` | internal/controllers/actionexecution_controller.go:171-178 | in every catalog any action that is not exclusive joins a running exclusive one |
| `ActionLimits.IsolatedIffAllExclusive` | internal/controllers/actionexecution_controller.go:149-182 | an exclusive action runs alone in every run if and only if every action of its server's catalog is exclusive |
| `ActionLimits.OrphanStaysRunning` | internal/controllers/actionexecution_controller.go:64-66 | an execution left Running by a crash stays so in every continuation until it is deleted |
| `ActionLimits.OrphanBlocksExclusive` | internal/controllers/actionexecution_controller.go:171-173 | until then every exclusive action on that server is rejected |
| `ActionController.FindAction` | internal/controllers/actionexecution_controller.go:91-97 | the first declaration of that name |
| `ActionController.ValidateParams` | internal/controllers/actionexecution_controller.go:138-147 | passes if and only if every required parameter is present |
| `ActionController.Reconciler.CheckConcurrency` | internal/controllers/actionexecution_controller.go:149-182 | blocked if and only if a rival runs that the newcomer's declaration conflicts with |
| `ActionController.Reconciler.SetState` | internal/controllers/actionexecution_controller.go:226-253 | the stamped record, stored if the write lands on the same object |
| `ActionController.Reconciler.Decide` | internal/controllers/actionexecution_controller.go:68-117 | admits or rejects as the model's verdict, with its reason |
| `ActionController.Reconciler.Begin` | internal/controllers/actionexecution_controller.go:43-126 | a pass up to the agent call is the Begin event, and launches exactly when that does |
| `ActionController.Reconciler.Finish` | internal/controllers/actionexecution_controller.go:126-135 | the rest of the pass is the Finish event |
| `ActionController.Reconciler.Cleanup` | internal/controllers/actionexecution_cleanup.go:44-83 | the loop is the Sweep event |
| `SnapshotSchedule.NextIsLeastTick` | internal/controllers/gamesnapshot_controller.go:154-163 | Next gives a tick, and none lies before it |
| `SnapshotSchedule.DelayIsExact` | internal/controllers/gamesnapshot_controller.go:161-171 | after the first snapshot the answer is no before the returned delay has elapsed and yes from then on |
| `SnapshotSchedule.DelayAfterSnapshot` | internal/controllers/gamesnapshot_controller.go:120-126 | the delay returned after a scheduled snapshot leads to the tick from which on the next one is due; there is none if that tick has passed |
| `SnapshotFirst.FirstDecision` | internal/controllers/gamesnapshot_controller.go:151-159 | a never-taken schedule answers yes less than a minute before a tick, otherwise with the delay to that tick |
| `SnapshotFirst.DelaysLeadOn` | internal/controllers/gamesnapshot_controller.go:151-159 | passes repeated at the returned delays go from tick to tick |
| `SnapshotFirst.FirstPassOrNever` | internal/controllers/gamesnapshot_controller.go:151-159 | such passes take the first snapshot if and only if the very first of them is near a tick |
| `SnapshotFirst.FarPassesNeverTake` | internal/controllers/gamesnapshot_controller.go:132-172 | in every run whose passes are never near a tick there is no snapshot at all |
| `SnapshotFirst.SelfScheduledNeverStarts` | internal/controllers/gamesnapshot_controller.go:132-172 | a run that keeps to the returned delays and does not start near a tick never takes a snapshot |
| `SnapshotFirst.HourlyNeverStarts` | internal/controllers/gamesnapshot_controller.go:151-159 | an hourly schedule first seen before the last minute of an hour never takes one on its own |
| `SnapshotSchedule.TakesBoundedByTicks` | internal/controllers/gamesnapshot_controller.go:161-168 | snapshots with a tick between neighbours number at most 1 + the ticks |
| `SnapshotRuns.LastSnapshotIncreases` | internal/controllers/gamesnapshot_controller.go:132-172 | LastSnapshotAt strictly increases in every run, with the schedule edited at will |
| `SnapshotRuns.SnapshotsBoundedByTicks` | internal/controllers/gamesnapshot_controller.go:132-172 | under one schedule consecutive snapshots have a tick in (earlier, later], so a run takes at most 1 + its ticks |
| `SnapshotRuns.RunKeepsHonest` | internal/controllers/gamesnapshot_controller.go:175-214 | SnapshotReady=True always speaks of the latest entry |
| `SnapshotRuns.TenMinutesOrReady` | internal/controllers/gamesnapshot_controller.go:104-114 | two VolumeSnapshots less than ten minutes apart: the earlier was observed ready in between |
| `SnapshotMeaning.DueMeans` | internal/controllers/gamesnapshot_controller.go:132-172 | when a snapshot is due: once without a schedule; within a minute before the first tick; from the tick after the last one on |
| `SnapshotMeaning.TakenIff` | internal/controllers/gamesnapshot_controller.go:76-129 | a pass makes a snapshot if and only if one is due, none under ten minutes old is unreported, and the calls work; otherwise refs, volumes and LastSnapshotAt stay |
| `SnapshotMeaning.SuccessPrunes` | internal/controllers/gamesnapshot_controller.go:108-120 | a due snapshot made and ready at once leaves the longest suffix of the list, the new entry included, within both limits; what left the list left the store unless its deletion failed; nothing unlisted is touched |
| `SnapshotMeaning.PrunedMeans` | internal/controllers/gamesnapshot_controller.go:428-477 | so no more than the count are listed, and the new one is the last unless it is too old itself |
| `SnapshotMeaning.LimitsHoldAfterSuccess` | internal/controllers/gamesnapshot_controller.go:117-120 | in every run, after each successful pass the limits of its spec hold |
| `SnapshotMeaning.MadeNotReady` | internal/controllers/gamesnapshot_controller.go:313-361 | a snapshot made but not found ready is listed and kept, nothing is pruned, and the pass reports failure |
| `SnapshotMeaning.NotMade` | internal/controllers/gamesnapshot_controller.go:195-211 | one that cannot be made leaves list and store alone and both conditions False |
| `SnapshotMeaning.NotDue` | internal/controllers/gamesnapshot_controller.go:82-101 | a missing server and a bad schedule are reported; otherwise a pass that is not due changes nothing |
| `SnapshotMeaning.MonitorMeans` | internal/controllers/gamesnapshot_controller.go:364-426 | timed out after ten minutes, complete with its size if ready, failed if it says so, else unchanged |
| `SnapshotMeaning.MonitorDelayMeans` | internal/controllers/gamesnapshot_controller.go:364-426 | 10 seconds for a missing VolumeSnapshot, 15 for a pending one, none otherwise |
| `SnapshotMeaning.OneShotTakesOnce` | internal/controllers/gamesnapshot_controller.go:134-142 | without a schedule a run takes at most one snapshot, with the first pass that finds its server and can make it |
| `SnapshotIndex.VolumeNameInjective` | internal/controllers/gamesnapshot_controller.go:260-260 | VolumeSnapshots made in different seconds have different names |
| `SnapshotIndex.RetentionKeepsIndex` | internal/controllers/gamesnapshot_controller.go:428-477 | retention keeps the list in order, the listed in existence, and, if its deletions succeed, the existing on the list |
| `SnapshotIndex.ListIsAlwaysSorted` | internal/controllers/gamesnapshot_controller.go:251-310 | in every run, whatever fails and whoever deletes, the list is sorted by creation time with distinct refs |
| `SnapshotIndex.ListedVolumesExist` | internal/controllers/gamesnapshot_controller.go:462-476 | unless others delete, every listed VolumeSnapshot exists, failed deletions included |
| `SnapshotIndex.ExistingVolumesAreListed` | internal/controllers/gamesnapshot_controller.go:462-476 | if deletions succeed, every existing one is listed, whoever else deletes |
| `SnapshotIndex.StatusIsAnIndex` | internal/controllers/gamesnapshot_controller.go:251-310 | with both, the list names exactly the existing VolumeSnapshots |
| `SnapshotRetention.RetentionKeepsLongestSuffix` | internal/controllers/gamesnapshot_controller.go:428-460 | the kept entries are the longest suffix within both the age and the count limit |
| `SnapshotRetention.RetentionPartitions` | internal/controllers/gamesnapshot_controller.go:442-460 | every entry is kept or dropped, none twice, none lost |
| `SnapshotRetention.RetentionIdempotent` | internal/controllers/gamesnapshot_controller.go:428-477 | pruning again at the same instant drops nothing |
| `SnapshotRetention.NewestSurvives` | internal/controllers/gamesnapshot_controller.go:442-460 | everything is dropped if and only if the newest entry is past the age limit, otherwise the newest stays |
| `SnapshotRetention.Prune` | internal/controllers/gamesnapshot_controller.go:429-460 | the loop computes the kept and the dropped entries |
| `SnapshotController.Reconciler.ShouldTakeSnapshot` | internal/controllers/gamesnapshot_controller.go:132-172 | the model's decision and delay |
| `SnapshotController.Reconciler.IsSnapshotInProgress` | internal/controllers/gamesnapshot_controller.go:175-192 | a recent latest entry without SnapshotReady=True |
| `SnapshotController.Reconciler.CreateVolumeSnapshot` | internal/controllers/gamesnapshot_controller.go:251-310 | the new VolumeSnapshot, its entry and LastSnapshotAt together, or nothing |
| `SnapshotController.Reconciler.WaitForSnapshotReady` | internal/controllers/gamesnapshot_controller.go:313-361 | one look: ready with its size noted, failed, or pending, which counts as an error |
| `SnapshotController.Reconciler.MonitorSnapshot` | internal/controllers/gamesnapshot_controller.go:364-426 | timeout, missing, ready, failed or still pending, each with its delay |
| `SnapshotController.Reconciler.ExecuteSnapshot` | internal/controllers/gamesnapshot_controller.go:195-214 | save, snapshot, wait, and retention after success; says whether it succeeded |
| `SnapshotController.Reconciler.Retain` | internal/controllers/gamesnapshot_controller.go:462-477 | the pruned list, and the dropped volumes gone except where the deletion failed |
| `SnapshotController.Reconciler.Reconcile` | internal/controllers/gamesnapshot_controller.go:76-129 | a pass is the model's pass and returns the model's delay |
| `GameServerLifecycle.RunKeepsSafe` | internal/controllers/gameserver_controller.go:98-215 | the invariant of the API-call machine, in every run |
| `GameServerLifecycle.ChildrenAreNeverOrphaned` | internal/controllers/gameserver_controller.go:98-118 | in every run, without the GameServer and its finalizer no child stands: each one listed has its deletion mark |
| `GameServerLifecycle.FinalizerGoneMeansAllGone` | internal/controllers/gameserver_controller.go:437-471 | if deletions take effect at once, with the finalizer gone all six children are gone |
| `GameServerLifecycle.UsedClaimOutlivesServer` | internal/controllers/gameserver_controller.go:459-462 | a claim held by a finalizer of its own can outlive the GameServer |
| `GameServerLifecycle.DisturbanceIsHarmless` | internal/controllers/gameserver_controller.go:98-118 | creation, edits, deletion and recreation of the server by others, and deletion of children, keep the invariant |
| `GameServerLifecycle.PatchAll` | internal/controllers/gameserver_controller.go:142-215 | undisturbed applying leaves every child of the order in place |
| `GameServerLifecycle.HeldDeletes` | internal/controllers/gameserver_controller.go:437-471 | deleting held children leaves each of them marked |
| `GameServerFinalizer.Reconciler.Reconcile` | internal/controllers/gameserver_controller.go:87-215 | whatever fails or happens in between, a pass is a sequence of machine steps ending in a safe state; undisturbed, it adds the finalizer, or ends with StatefulSet, headless, agent and game Service and claim, the secret exactly if wanted or there before, or with every child gone that was not held and the server let go |
| `GameServerFinalizer.SettledMeans` | internal/controllers/gameserver_controller.go:98-215 | the undisturbed outcome, child by child and field by field |
| `GameServerLifecycle.SecretStandsBeforeStatefulSet` | internal/controllers/gameserver_controller.go:142-182 | with SFTP on, a pass gets to the StatefulSet only after it applied the secret, which is there unless somebody took it since |
| `GameServerLifecycle.StaleWriteIsRefused` | internal/controllers/gameserver_controller.go:99-115 | an update of a server edited or recreated since it was read changes nothing |
| `GameServerLifecycle.FailedCallEndsPass` | internal/controllers/gameserver_controller.go:98-215 | a failed call changes nothing and ends the pass |
| `GameServerFinalizer.Reconciler.ApplyChildren` | internal/controllers/gameserver_controller.go:142-215 | the children in order, up to the first failing call |
| `GameServerFinalizer.Reconciler.ApplyOne` | internal/controllers/sftp.go:44-89 | creating a child that exists already is no error and changes nothing |
| `GameServerFinalizer.Reconciler.CleanUp` | internal/controllers/gameserver_controller.go:108-116 | all six deletions before the finalizer goes, none skipped, stop at the first failure |
| `GameServerFinalizer.Reconciler.ProtectServer` | internal/controllers/gameserver_controller.go:99-106 | the finalizer is added to the version that was read, or not at all |
| `GameServerIdle.RunTracks` | internal/controllers/gameserver_controller.go:552-616 | in every run LastActivity is the time of the latest recorded sighting, or of the first recorded check |
| `GameServerIdle.FiresExactlyWhenIdle` | internal/controllers/gameserver_controller.go:252-266 | after any run, a pass shuts down for idleness if and only if it gets that far on an answer of no players and the record shows none for the timeout of the day |
| `GameServerIdle.IdleShutdownIsEarned` | internal/controllers/gameserver_controller.go:552-616 | an idle shutdown means no players now, and every earlier pass that saw and recorded one is at least the current timeout ago |
| `GameServerIdle.SightingsAreChecked` | internal/controllers/gameserver_controller.go:566-583 | every pass with an answer leaves a check in the history |
| `GameServerIdle.LostSightingShutsDown` | internal/controllers/gameserver_controller.go:576-581 | if the write of a sighting is lost, the server is shut down although players were just seen |
| `GameServerPasses.CompletedPassAgrees` | internal/controllers/gameserver_controller.go:150-266 | after every completed pass replicas is 0 if and only if autoStart is off or this pass fired the idle shutdown, else 1; the phase agrees if and only if the write reporting an idle shutdown was not lost; Ready, Service and endpoints agree too |
| `GameServerPasses.IdleShutdownDoesNotPersist` | internal/controllers/gameserver_controller.go:167-177 | the next completed pass scales back up unless it fires anew |
| `GameServerPasses.PublishedIsServed` | internal/controllers/gameserver_controller.go:356-388 | after a completed pass the published port numbers are those of the stored Service |
| `GameServerPasses.NoShutdownUnannounced` | internal/controllers/gameserver_controller.go:150-165 | in every run, a ready non-zero StatefulSet is taken to 0 only after a PrepareShutdown call in the same pass |
| `GameServerMeaning.DoneIff` | internal/controllers/gameserver_controller.go:120-247 | which calls must work for a pass to complete |
| `GameServerMeaning.PassActs` | internal/controllers/gameserver_controller.go:150-179 | exactly the calls to agent and StatefulSet a pass makes, in order: a warning before stopping a server that is up, one write of 1 or 0 replicas, and warning and write of 0 when idle |
| `GameServerMeaning.UnfinishedStatus` | internal/controllers/gameserver_controller.go:316-336 | a pass that does not complete leaves the status alone, but for Error with ProfileNotFound |
| `GameServerMeaning.StoppedMeans` | internal/controllers/gameserver_controller.go:338-354 | a stopped server reports no version, endpoints or players, and AutoStartDisabled |
| `GameServerMeaning.ProvisioningMeans` | internal/controllers/gameserver_controller.go:356-388 | one that is not up yet reports Provisioning and an agent nobody has probed |
| `GameServerMeaning.RunningMeans` | internal/controllers/gameserver_controller.go:252-266 | one that is up reports the agent's version and health, the players if there was something to write down, and activity if there was any |
| `GameServerPorts.ServiceHasNoDuplicates` | internal/controllers/gameserver_controller.go:729-774 | no port number and protocol twice; exactly those of the exposed ports, and SFTP's if enabled |
| `GameServerPorts.EndpointsMatchService` | internal/controllers/gameserver_controller.go:394-435 | published endpoints have exactly the Service's port numbers, all at one address; empty exactly without address or ports |
| `GameServerPorts.BuildGameService` | internal/controllers/gameserver_controller.go:735-774 | the loop makes the Service's ports as specified |
| `GameServerPorts.ServiceComesFrom` | internal/controllers/gameserver_controller.go:741-774 | each service port has the name, number and protocol of the first shown port of that number and protocol, TCP unless it names one, or is sftp on 2022 |
| `GameServerPorts.ServesShown` | internal/controllers/gameserver_controller.go:741-757 | each port that is exposed, or does not say, is served |
| `GameServerPorts.ServesSftpOnce` | internal/controllers/gameserver_controller.go:761-774 | SFTP is served on 2022 if enabled, and no number and protocol twice |
| `GameServerPorts.EndpointsMean` | internal/controllers/gameserver_controller.go:394-435 | the endpoints one by one: shown ports and SFTP at the DNS name, else the ingress IP, else its host name |
| `GameServerPorts.ResolveEndpoints` | internal/controllers/gameserver_controller.go:394-435 | every exposed port and SFTP at the DNS name or ingress address, or nothing |
| `GameServerController.Reconciler.UpdateStatus` | internal/controllers/gameserver_controller.go:356-388 | the live status with endpoints and both conditions, stored if the write lands |
| `GameServerController.Reconciler.CheckIdleTimeout` | internal/controllers/gameserver_controller.go:552-616 | the model's idle check, every branch |
| `GameServerController.Reconciler.Reconcile` | internal/controllers/gameserver_controller.go:120-271 | a pass is the model's pass, and says whether it completed and whether it fired |
| `Conditions.SetCondition` | internal/controllers/gameserver_controller.go:908-919 | the loop overwrites the first condition of the type, or appends |
| `Conditions.SetIsMapUpdate` | internal/controllers/gameserver_controller.go:908-919 | the list acts as a map: what is set is read back, every other type reads as before |
| `Conditions.SetKeepsList` | internal/controllers/gameserver_controller.go:908-919 | types stay unique and in place, nothing is lost |
| `Conditions.SetTwice` | internal/controllers/gameserver_controller.go:908-919 | of two settings of one type the last counts |
| `Rcon.Fill` | sdk/agent/rcon/minecraft.go:73-84 | the buffer filled at offsets is the packet's encoding |
| `Rcon.WireFormat` | sdk/agent/rcon/minecraft.go:73-84 | the wire format byte by byte: length of the rest, id, type, lowest byte first, then the body and two NULs |
| `Rcon.ReadingMeans` | sdk/agent/rcon/minecraft.go:98-126 | what any bytes are read as: short, refused unless the length is 10 to 4096, or the fields and the body up to its first NUL |
| `Rcon.SendMinecraft` | sdk/agent/rcon/minecraft.go:73-87 | the encoding with id 1 |
| `Rcon.SendSource` | sdk/agent/rcon/source.go:69-83 | the encoding with type 2 |
| `Rcon.Conn.ReadRawPacket` | sdk/agent/rcon/minecraft.go:98-126 | the decoder's answer and what it leaves unread |
| `Rcon.ScanNul` | sdk/agent/rcon/minecraft.go:117-124 | the bytes before the first NUL, nothing if there is none |
| `Rcon.SignedRoundTrip` | sdk/agent/rcon/minecraft.go:78-80 | a 32-bit word survives little-endian encoding, sign included |
| `Rcon.DecodeEncode` | sdk/agent/rcon/minecraft.go:98-126 | a longer body than 4086 bytes is rejected, any other is cut at its first NUL, and what follows is left untouched |
| `Rcon.RoundTrip` | sdk/agent/rcon/minecraft.go:98-126 | a packet arrives as sent if and only if its body has at most 4086 bytes and no NUL |
| `Rcon.StreamRoundTrip` | sdk/agent/rcon/minecraft.go:98-126 | any list of packets with bodies of at most 4086 bytes written back to back is read back in order to the last byte, each body cut at its first NUL |
| `Rcon.StreamArrivesAsSent` | sdk/agent/rcon/minecraft.go:117-124 | which is the list itself if and only if no body has a NUL |
| `Rcon.StreamStopsAtLongBody` | sdk/agent/rcon/minecraft.go:104-106 | packets before the first too long one arrive, reading stops at it |
| `Rcon.DecodedIsNulFree` | sdk/agent/rcon/minecraft.go:117-124 | whatever the bytes, a decoded body has no NUL and at most 4087 bytes |
| `Namespaces.MatchNamespacePattern` | internal/controlplane/auth/namespace.go:8-16 | a final star stands for any continuation, every other pattern for itself |
| `Namespaces.MatchAnyNamespace` | internal/controlplane/auth/namespace.go:21-28 | true if and only if some pattern matches |
| `Namespaces.AllowsNamespace` | internal/controlplane/auth/auth.go:43-53 | an empty list allows every namespace, any other those it matches |
| `Namespaces.ParseNamespaces` | internal/controlplane/auth/namespace.go:32-41 | the trimmed non-blank parts, in order |
| `Namespaces.SplitJoin` | internal/controlplane/auth/namespace.go:34-34 | splitting undoes joining for comma-free parts |
| `Namespaces.SplitAcross` | internal/controlplane/auth/namespace.go:34-34 | a comma between two strings splits them, and each goes on splitting on its own |
| `Namespaces.JoinSplit` | internal/controlplane/auth/namespace.go:34-34 | joining undoes splitting on any string |
| `Namespaces.ParseJoinIsPieces` | internal/controlplane/auth/namespace.go:32-41 | for any list, clean or not, parsing the joined form gives what each element parses to, in order |
| `Namespaces.ParsedAreClean` | internal/controlplane/auth/namespace.go:32-41 | whatever is parsed is non-empty, trimmed and comma-free |
| `Namespaces.ParseJoin` | internal/controlplane/auth/namespace.go:32-41 | parsing the joined form gives the list back if and only if every pattern is clean |
| `Namespaces.ParseJoinParse` | internal/controlplane/auth/namespace.go:32-41 | on any string, parse-join-parse is parse |
| `ApiKeys.KeyKeepsList` | internal/controlplane/auth/storage.go:153-203 | storing and loading keeps the list if and only if it is clean, or is the single empty pattern |
| `ApiKeys.LoadedListIsStable` | internal/controlplane/auth/storage.go:179-203 | storing and loading twice is storing and loading once |
| `ApiKeys.KeyKeepsDecisionIff` | internal/controlplane/auth/storage.go:153-203 | for every key and namespace name, the decision survives loading if and only if the name was allowed, or is gained neither from blank patterns nor from a piece of one |
| `ApiKeys.LoadedDecision` | internal/controlplane/auth/storage.go:179-195 | a loaded key allows what the pieces of its patterns stand for, and everything if there are none |
| `ApiKeys.LoadingNeverNarrows` | internal/controlplane/auth/storage.go:179-195 | no namespace that was allowed is lost by loading |
| `ApiKeys.CleanKeyKeepsDecisions` | internal/controlplane/auth/storage.go:153-203 | a clean key allows the same namespaces after loading |
| `ApiKeys.LoadsUnrestrictedIff` | internal/controlplane/auth/storage.go:193-195 | a restricted key loads as an unrestricted one if and only if its patterns are spaces and commas only, the single empty one aside |
| `ApiKeys.BlankKeyTurnsUnrestricted` | internal/controlplane/auth/storage.go:193-195 | such a key allows no namespace before loading and every one after |
| `ApiKeys.SpaceKeyTurnsUnrestricted` | internal/controlplane/auth/storage.go:193-195 | the key whose one pattern is a space is one |

## Left out

- Fleet finalizer and cleanupFleet (gameserverfleet_controller.go:62-82 and 393-412): only easy members.
- drainServer and callAgentSave: advisory agent calls whose outcome is ignored.
- The finalizer of GameSnapshot: adding and removing it guards nothing.
- Image pull secrets, ServiceMonitor, the pod template and the sizes and classes of the claim: no part in the properties; a failure among them is a failed call.
- Health, info and player-count calls, dialing and timeouts: inputs of a pass.
- Executions that target another namespace than their own, and profiles edited during an action.
- Cron expressions that never fire, whose Next is the zero time; parsing of cron expressions and durations.
- Requeue delays of reconcilers other than the snapshot one; events, metrics and logging.
- Writes that reach the API server although the caller sees an error.
- JSON encoding of the key metadata: assumed to keep the list of patterns.
- RCON bodies of two gigabytes and more, for which no packet size exists; authentication, player-count parsing and the console.
- HTTP handlers, the CLI, authentication providers, tenants, webhooks and generated code.
- FleetRollout.RolloutClosedForm: asks that the API server refuses no update; RolloutPass and NoSlotNoUpdate hold without.
- GameServerIdle.IdleShutdownIsEarned: speaks of sightings whose status write landed; LostSightingShutsDown shows that the others do not count.
- GameServerLifecycle.FinalizerGoneMeansAllGone: asks that deletions take effect at once; ChildrenAreNeverOrphaned holds without, UsedClaimOutlivesServer shows the difference.
- GameServerLifecycle.DisturbanceIsHarmless: does not cover others who take the operator's finalizer off by hand or create a child under the server's names; either would leave a child without protection.
- SnapshotIndex.StatusIsAnIndex: asks that deletions succeed and nobody else deletes VolumeSnapshots; each half is stated under the one assumption it needs.
- ActionLifecycle.SweepIsExact: a deleted record that a finalizer of somebody else holds counts as a failed deletion.
